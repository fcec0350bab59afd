/** What the reports show, entry by entry, line by line and row by row. */
module ReportContents {
  import opened Basics
  import opened Sorting
  import opened Model
  import opened Turnovers
  import opened Exercises
  import opened Balances
  import opened ReportQueries
  import opened ClosingTheorems
  import JournalBook
  import Ledger
  import opened TrialBalance

  // The entries of a window.

  ghost predicate Before(date: Date, number: nat, date': Date, number': nat) {
    date < date' || (date == date' && number <= number')
  }

  /** Some entries of a journal in the order of their dates, and of their numbers within a date: each as often as in the
      journal if the window has its date, and no other. */
  ghost predicate Shows(es: seq<Entry>, entries: seq<Entry>, w: Window) {
    && (forall i, j :: 0 <= i < j < |es| ==> Before(es[i].date, es[i].number, es[j].date, es[j].number))
    && (forall e :: multiset(es)[e] == if w.Has(e.date) then multiset(entries)[e] else 0)
  }

  lemma {:induction false} InWindowCounts(entries: seq<Entry>, w: Window, e: Entry)
    ensures multiset(InWindow(entries, w))[e] == if w.Has(e.date) then multiset(entries)[e] else 0
  {
    if entries != [] {
      InWindowCounts(entries[1..], w, e);
      assert entries == [entries[0]] + entries[1..];
    }
  }

  lemma ChronologicalShows(entries: seq<Entry>, w: Window)
    ensures Shows(Chronological(entries, w), entries, w)
  {
    var es := Chronological(entries, w);
    SortSorts(InWindow(entries, w), EntryRank);
    forall i, j | 0 <= i < j < |es| ensures Before(es[i].date, es[i].number, es[j].date, es[j].number) {
      assert AtMost(EntryRank(es[i]), EntryRank(es[j]));
    }
    forall e ensures multiset(es)[e] == if w.Has(e.date) then multiset(entries)[e] else 0 {
      InWindowCounts(entries, w, e);
    }
  }

  lemma ShownMembers(es: seq<Entry>, entries: seq<Entry>, w: Window)
    requires Shows(es, entries, w)
    ensures forall e :: e in es <==> e in entries && w.Has(e.date)
  {
    forall e ensures e in es <==> e in entries && w.Has(e.date) {
      assert e in es <==> multiset(es)[e] > 0;
      assert e in entries <==> multiset(entries)[e] > 0;
    }
  }

  // The journal book.

  function Column(amount: Option<int>): int { if amount.Some? then amount.value else 0 }

  function ColumnSum(lines: seq<JournalBook.BookLine>, side: Side): int {
    if lines == [] then 0
    else Column(if side == Debit then lines[0].debit else lines[0].credit) + ColumnSum(lines[1..], side)
  }

  /** A line as printed: its amount in the column of its side, and the other column empty. */
  predicate PrintsLine(l: Line, x: JournalBook.BookLine) {
    && x.account == l.account
    && x.debit == (if l.side == Debit then Some(l.amount) else None)
    && x.credit == (if l.side == Credit then Some(l.amount) else None)
  }

  /** An entry as printed: line by line, with its columns added up. */
  ghost predicate Prints(e: Entry, x: JournalBook.BookEntry) {
    && x.number == e.number && x.date == e.date && x.source == e.source && |x.lines| == |e.lines|
    && (forall i :: 0 <= i < |e.lines| ==> PrintsLine(e.lines[i], x.lines[i]))
    && x.totalDebit == ColumnSum(x.lines, Debit) && x.totalCredit == ColumnSum(x.lines, Credit)
  }

  lemma {:induction false} ColumnsTurnOver(lines: seq<Line>, xs: seq<JournalBook.BookLine>, side: Side)
    requires |lines| == |xs| && forall i :: 0 <= i < |lines| ==> PrintsLine(lines[i], xs[i])
    ensures ColumnSum(xs, side) == Turnover(lines, side, Everything())
  {
    if lines != [] {
      ColumnsTurnOver(lines[1..], xs[1..], side);
      assert PrintsLine(lines[0], xs[0]);
    }
  }

  lemma EntryPrinted(e: Entry)
    ensures Prints(e, JournalBook.BookEntryOf(e))
  {
    var x := JournalBook.BookEntryOf(e);
    assert forall i :: 0 <= i < |e.lines| ==> PrintsLine(e.lines[i], x.lines[i]);
    ColumnsTurnOver(e.lines, x.lines, Debit);
    ColumnsTurnOver(e.lines, x.lines, Credit);
  }

  function TotalsSum(xs: seq<JournalBook.BookEntry>, side: Side): int {
    if xs == [] then 0
    else (if side == Debit then xs[0].totalDebit else xs[0].totalCredit) + TotalsSum(xs[1..], side)
  }

  lemma {:induction false} TotalsTurnOver(es: seq<Entry>, xs: seq<JournalBook.BookEntry>, side: Side)
    requires |es| == |xs| && forall k :: 0 <= k < |es| ==> Prints(es[k], xs[k])
    ensures TotalsSum(xs, side) == Turnover(LinesIn(es, Always()), side, Everything())
  {
    if es != [] {
      TotalsTurnOver(es[1..], xs[1..], side);
      assert Prints(es[0], xs[0]);
      ColumnsTurnOver(es[0].lines, xs[0].lines, side);
      TurnoverConcat(es[0].lines, LinesIn(es[1..], Always()), side, Everything());
    }
  }

  /** A journal book prints the entries of its window in order, each line in the column of its side, with the columns added
      up for each entry and for the book. */
  ghost predicate IsBookOf(book: JournalBook.Book, es: seq<Entry>) {
    && |book.entries| == |es| && (forall k :: 0 <= k < |es| ==> Prints(es[k], book.entries[k]))
    && book.grandDebit == TotalsSum(book.entries, Debit) && book.grandCredit == TotalsSum(book.entries, Credit)
  }

  lemma BookContents(b: Books, c: Context) returns (es: seq<Entry>)
    ensures Shows(es, b.entries, Visible(c)) && IsBookOf(JournalBook.BookOf(b, c), es)
  {
    es := Chronological(b.entries, Visible(c));
    ChronologicalShows(b.entries, Visible(c));
    var book := JournalBook.BookOf(b, c);
    forall k | 0 <= k < |es| ensures Prints(es[k], book.entries[k]) {
      EntryPrinted(es[k]);
    }
    TotalsTurnOver(es, book.entries, Debit);
    TotalsTurnOver(es, book.entries, Credit);
    ChronologicalTurnover(b.entries, Visible(c), Debit, Everything());
    ChronologicalTurnover(b.entries, Visible(c), Credit, Everything());
  }

  // The ledger.

  /** Debits less credits for assets and losses, credits less debits for the rest. */
  function Signed(root: nat, net: int): int { if root == 1 || root == 4 then net else -net }

  /** A line of an entry as a movement: its amount in the column of its side. */
  predicate Moves(m: Ledger.Movement, e: Entry, l: Line) {
    && m.date == e.date && m.number == e.number
    && m.debit == (if l.side == Debit then Some(l.amount) else None)
    && m.credit == (if l.side == Credit then Some(l.amount) else None)
  }

  function LinesFor(lines: seq<Line>, id: AccountId): seq<Line> {
    if lines == [] then [] else (if lines[0].account == id then [lines[0]] else []) + LinesFor(lines[1..], id)
  }

  /** The lines on an account, entry after entry. */
  function AllLinesFor(es: seq<Entry>, id: AccountId): seq<(Entry, Line)> {
    if es == [] then []
    else
      var ls := LinesFor(es[0].lines, id);
      seq(|ls|, i requires 0 <= i < |ls| => (es[0], ls[i])) + AllLinesFor(es[1..], id)
  }

  lemma {:induction false} RowsOfEntryAre(e: Entry, lines: seq<Line>, id: AccountId)
    ensures var ls := LinesFor(lines, id);
            Ledger.RowsOfEntry(e, lines, id)
            == seq(|ls|, i requires 0 <= i < |ls| => Ledger.Row(e.date, e.number, ls[i]))
  {
    if lines != [] {
      RowsOfEntryAre(e, lines[1..], id);
    }
  }

  lemma {:induction false} RowsAre(es: seq<Entry>, id: AccountId)
    ensures var all := AllLinesFor(es, id);
            Ledger.RowsFor(es, id)
            == seq(|all|, k requires 0 <= k < |all| => Ledger.Row(all[k].0.date, all[k].0.number, all[k].1))
  {
    if es != [] {
      RowsOfEntryAre(es[0], es[0].lines, id);
      RowsAre(es[1..], id);
    }
  }

  /** The k-th movement is the k-th of some lines; its balance goes on from the one before by the signed amount. */
  ghost predicate MovementFits(card: Ledger.AccountCard, root: nat, all: seq<(Entry, Line)>, k: nat) {
    && k < |all| && k < |card.movements|
    && Moves(card.movements[k], all[k].0, all[k].1)
    && card.movements[k].balance
       == (if k == 0 then card.opening else card.movements[k - 1].balance)
          + Signed(root, if all[k].1.side == Debit then all[k].1.amount else -all[k].1.amount)
  }

  /** A card moves with the lines on its account in the entries shown, in their order, from the opening to the closing. */
  ghost predicate IsCardOf(card: Ledger.AccountCard, root: nat, es: seq<Entry>) {
    && |card.movements| == |AllLinesFor(es, card.id)|
    && (forall k :: 0 <= k < |card.movements| ==> MovementFits(card, root, AllLinesFor(es, card.id), k))
    && card.closing == (if card.movements == [] then card.opening else card.movements[|card.movements| - 1].balance)
    && card.closing == card.opening + Signed(root, card.periodDebit - card.periodCredit)
  }

  lemma DeltaIsSigned(root: nat, debit: int, credit: int)
    ensures Ledger.Delta(root, debit, credit) == Signed(root, debit - credit)
  {
  }

  /** What an account brings forward: its signed net before what is shown, from where the report computes. */
  function BroughtForward(b: Books, c: Context, id: AccountId): int
    requires id < |b.accounts|
  {
    if c.visibleFrom.None? then 0
    else Signed(b.accounts[id].parent.root,
                Net(LinesIn(b.entries, Window(c.computedFrom, Some(c.visibleFrom.value - 1))), Only(id)))
  }

  lemma MovementCount(b: Books, c: Context, id: AccountId)
    requires id < |b.accounts|
    ensures |Ledger.CardOf(b, c, id).movements| == |AllLinesFor(Chronological(b.entries, Visible(c)), id)|
    ensures Ledger.CardOf(b, c, id).id == id
  {
    RowsAre(Chronological(b.entries, Visible(c)), id);
  }

  lemma MovementOf(b: Books, c: Context, id: AccountId, k: nat)
    requires id < |b.accounts| && k < |Ledger.CardOf(b, c, id).movements|
    ensures MovementFits(Ledger.CardOf(b, c, id), b.accounts[id].parent.root,
                         AllLinesFor(Chronological(b.entries, Visible(c)), id), k)
  {
    RowsAre(Chronological(b.entries, Visible(c)), id);
    Ledger.RunningStep(b, c, id, k);
  }

  lemma CardBalances(b: Books, c: Context, id: AccountId)
    requires id < |b.accounts|
    ensures var card := Ledger.CardOf(b, c, id);
            && card.opening == BroughtForward(b, c, id)
            && card.periodDebit == Turnover(LinesIn(b.entries, Visible(c)), Debit, Only(id))
            && card.periodCredit == Turnover(LinesIn(b.entries, Visible(c)), Credit, Only(id))
            && card.closing == card.opening + Signed(b.accounts[id].parent.root, card.periodDebit - card.periodCredit)
  {
  }

  /** The card of an account, in full. */
  lemma CardContents(b: Books, c: Context, id: AccountId) returns (es: seq<Entry>)
    requires id < |b.accounts|
    ensures Shows(es, b.entries, Visible(c))
    ensures IsCardOf(Ledger.CardOf(b, c, id), b.accounts[id].parent.root, es) && Ledger.CardOf(b, c, id).id == id
    ensures Ledger.CardOf(b, c, id).opening == BroughtForward(b, c, id)
    ensures Ledger.CardOf(b, c, id).periodDebit == Turnover(LinesIn(b.entries, Visible(c)), Debit, Only(id))
    ensures Ledger.CardOf(b, c, id).periodCredit == Turnover(LinesIn(b.entries, Visible(c)), Credit, Only(id))
  {
    es := Chronological(b.entries, Visible(c));
    ChronologicalShows(b.entries, Visible(c));
    Ledger.RunningEndsAtClosing(b, c, id);
    CardBalances(b, c, id);
    MovementCount(b, c, id);
    hide Ledger.CardOf, Chronological, Visible, BroughtForward, MovementFits, Shows;
    var card := Ledger.CardOf(b, c, id);
    forall k | 0 <= k < |card.movements|
      ensures MovementFits(card, b.accounts[id].parent.root, AllLinesFor(es, id), k)
    {
      MovementOf(b, c, id, k);
    }
  }

  // Accounts in the order of their codes.

  ghost predicate CodeOrder(a: Account, b: Account) {
    var x, y := a.parent.root * 100 + a.parent.local, b.parent.root * 100 + b.parent.local;
    x < y || (x == y && a.suffix <= b.suffix)
  }

  ghost predicate CodesInOrder(accounts: seq<Account>, ids: seq<AccountId>) {
    && (forall id :: id in ids ==> id < |accounts|)
    && (forall i, j :: 0 <= i < j < |ids| && ids[i] < |accounts| && ids[j] < |accounts| ==>
          CodeOrder(accounts[ids[i]], accounts[ids[j]]))
  }

  lemma ByCodeOrdered(accounts: seq<Account>)
    ensures CodesInOrder(accounts, ByCode(accounts))
  {
    var ids := ByCode(accounts);
    ByCodeOnce(accounts);
    SortSorts(Ids(|accounts|), CodeRank(accounts));
    forall i, j | 0 <= i < j < |ids| && ids[i] < |accounts| && ids[j] < |accounts|
      ensures CodeOrder(accounts[ids[i]], accounts[ids[j]])
    {
      assert AtMost(CodeRank(accounts)(ids[i]), CodeRank(accounts)(ids[j]));
    }
  }

  // The cards of a ledger.

  function CardIds(cards: seq<Ledger.AccountCard>): seq<AccountId> {
    seq(|cards|, k requires 0 <= k < |cards| => cards[k].id)
  }

  ghost predicate Ordered(accounts: seq<Account>, ids: seq<AccountId>) { CodesInOrder(accounts, ids) && NoRepeats(ids) }

  lemma OneMoreOrdered(accounts: seq<Account>, ids: seq<AccountId>, id: AccountId)
    requires Ordered(accounts, ids) && id < |accounts|
    requires forall x :: x in ids ==> x != id && x < |accounts| && CodeOrder(accounts[x], accounts[id])
    ensures Ordered(accounts, ids + [id])
  {
    forall i | 0 <= i < |ids| ensures ids[i] in ids {
    }
  }

  lemma PrefixOrdered(accounts: seq<Account>, ids: seq<AccountId>)
    requires Ordered(accounts, ids) && ids != []
    ensures var n := |ids| - 1;
            && Ordered(accounts, ids[..n]) && ids[n] < |accounts|
            && forall x :: x in ids[..n] ==> x != ids[n] && x < |accounts| && CodeOrder(accounts[x], accounts[ids[n]])
  {
    var n := |ids| - 1;
    assert ids[n] in ids;
    forall x | x in ids[..n] ensures x != ids[n] && x < |accounts| && CodeOrder(accounts[x], accounts[ids[n]]) {
      var k :| 0 <= k < n && ids[..n][k] == x;
      assert ids[k] == x && ids[k] in ids;
    }
  }

  lemma {:induction false} OwnedInOrder(ids: seq<AccountId>, accounts: seq<Account>)
    requires Ordered(accounts, ids)
    ensures Ordered(accounts, Ledger.Owned(ids, accounts))
  {
    if ids != [] {
      var n := |ids| - 1;
      PrefixOrdered(accounts, ids);
      Ledger.OwnedOnly(ids[..n], accounts);
      hide Ordered, CodeOrder;
      OwnedInOrder(ids[..n], accounts);
      var before := Ledger.Owned(ids[..n], accounts);
      if accounts[ids[n]].owner == ThisCompany {
        OneMoreOrdered(accounts, before, ids[n]);
      } else {
        assert before + [] == before;
      }
    } else {
      assert Ledger.Owned(ids, accounts) == ids;
    }
  }

  /** A ledger of the whole company has one card for each of its accounts, by code; a ledger of one account has its card
      alone, and there is none for an account that is not the company's. */
  lemma LedgerContents(b: Books, c: Context, account: Option<AccountId>)
    ensures account.None? ==>
              var r := Ledger.LedgerOf(b, c, account);
              && r.Ok? && CodesInOrder(b.accounts, CardIds(r.value)) && NoRepeats(CardIds(r.value))
              && forall id: AccountId :: id in CardIds(r.value) <==> id < |b.accounts| && b.accounts[id].owner == ThisCompany
    ensures account.Some? ==>
              var id := account.value;
              var r := Ledger.LedgerOf(b, c, account);
              if id < |b.accounts| && b.accounts[id].owner == ThisCompany then r.Ok? && CardIds(r.value) == [id]
              else r == Err(UnknownAccount)
    ensures Ledger.LedgerOf(b, c, account).Ok? ==>
              forall card :: card in Ledger.LedgerOf(b, c, account).value ==>
                card.id < |b.accounts| && card == Ledger.CardOf(b, c, card.id)
  {
    ByCodeOrdered(b.accounts);
    ByCodeOnce(b.accounts);
    OwnedInOrder(ByCode(b.accounts), b.accounts);
    Ledger.OwnedOnly(ByCode(b.accounts), b.accounts);
    Ledger.ListedInTable(b, account);
    var listed := Ledger.Listed(b, account);
    if listed.Some? {
      var cards := Ledger.LedgerOf(b, c, account).value;
      assert CardIds(cards) == listed.value;
      forall card | card in cards ensures card.id < |b.accounts| && card == Ledger.CardOf(b, c, card.id) {
        var k :| 0 <= k < |cards| && cards[k] == card;
        assert listed.value[k] in listed.value;
      }
    }
  }

  // The trial balance.

  /** A net in one of two columns, or in none if it is zero. */
  predicate SaldoFits(s: Saldo, net: int) {
    s.deudor == (if net > 0 then Some(net) else None) && s.acreedor == (if net < 0 then Some(-net) else None)
  }

  /** Seen from the columns: they differ by the net, at most one is filled, and never with zero or less. */
  lemma SaldoColumns(s: Saldo, net: int)
    requires SaldoFits(s, net)
    ensures s.On(Debit) - s.On(Credit) == net && (s.deudor.None? || s.acreedor.None?)
    ensures (s.deudor.Some? ==> s.deudor.value > 0) && (s.acreedor.Some? ==> s.acreedor.value > 0)
  {
  }

  /** A row of a trial balance: an account of the company under the colectiva of its group, with what the journal turns over
      on it in the window, and its net in the right column. */
  ghost predicate RowFits(b: Books, w: Window, parent: Code, r: Row) {
    && r.node.ref.id.Some? && r.node.ref.id.value < |b.accounts|
    && var id := r.node.ref.id.value;
       && b.accounts[id].owner == ThisCompany && b.accounts[id].parent == parent
       && r.node.debit == Turnover(LinesIn(b.entries, w), Debit, Only(id))
       && r.node.credit == Turnover(LinesIn(b.entries, w), Credit, Only(id))
       && SaldoFits(r.saldo, Net(LinesIn(b.entries, w), Only(id)))
  }

  function RowsSum(rows: seq<Row>, side: Side): int {
    if rows == [] then 0
    else
      var n := |rows| - 1;
      RowsSum(rows[..n], side) + if side == Debit then rows[n].node.debit else rows[n].node.credit
  }

  /** A group of a trial balance: its rows fit, and its subtotals are theirs. */
  ghost predicate GroupFits(b: Books, w: Window, g: ReportGroup) {
    && (forall r :: r in g.rows ==> RowFits(b, w, g.parent, r))
    && g.debit == RowsSum(g.rows, Debit) && g.credit == RowsSum(g.rows, Credit)
    && SaldoFits(g.saldo, g.debit - g.credit)
  }

  lemma {:induction false} RowsUnderAre(rows: seq<BalanceNode>, parent: Code)
    ensures forall r :: r in RowsUnder(rows, parent) <==> exists n :: n in rows && n.ref.parent == parent && r == RowOf(n)
  {
    if rows != [] {
      var k := |rows| - 1;
      assert rows == rows[..k] + [rows[k]];
      RowsUnderAre(rows[..k], parent);
    }
  }

  lemma {:induction false} RowsUnderSum(rows: seq<BalanceNode>, parent: Code, side: Side)
    ensures RowsSum(RowsUnder(rows, parent), side) == Sum(rows, side, Under(parent))
  {
    if rows != [] {
      var k := |rows| - 1;
      hide RowsUnder, RowsSum;
      RowsUnderSum(rows[..k], parent, side);
      RowsUnderOneMore(rows, parent);
      RowsSumOneMore(RowsUnder(rows[..k], parent), RowOf(rows[k]), side);
    }
  }

  lemma RowsUnderOneMore(rows: seq<BalanceNode>, parent: Code)
    requires rows != []
    ensures var k := |rows| - 1;
            RowsUnder(rows, parent) == if rows[k].ref.parent == parent then RowsUnder(rows[..k], parent) + [RowOf(rows[k])]
                                       else RowsUnder(rows[..k], parent)
  {
  }

  lemma RowsSumOneMore(rows: seq<Row>, r: Row, side: Side)
    ensures RowsSum(rows + [r], side) == RowsSum(rows, side) + if side == Debit then r.node.debit else r.node.credit
  {
    assert (rows + [r])[..|rows|] == rows;
  }

  lemma RowIsFit(b: Books, c: Context, n: BalanceNode)
    requires n in RowsOf(b, c)
    ensures RowFits(b, Computed(c), n.ref.parent, RowOf(n))
  {
    NodesForMembers(ByCode(b.accounts), b.accounts, LinesIn(b.entries, Computed(c)), n);
  }

  lemma GroupIsFit(b: Books, c: Context, parent: Code)
    ensures GroupFits(b, Computed(c), Reported(GroupOf(RowsOf(b, c), parent)))
  {
    var rows := RowsOf(b, c);
    RowsUnderAre(rows, parent);
    RowsUnderSum(rows, parent, Debit);
    RowsUnderSum(rows, parent, Credit);
    forall r | r in RowsUnder(rows, parent) ensures RowFits(b, Computed(c), parent, r) {
      var n :| n in rows && n.ref.parent == parent && r == RowOf(n);
      RowIsFit(b, c, n);
    }
  }

  lemma GroupMembers(b: Books, c: Context)
    ensures forall g :: g in TrialOf(RowsOf(b, c)).groups <==>
              exists p :: p in Parents(RowsOf(b, c)) && g == Reported(GroupOf(RowsOf(b, c), p))
  {
    var rows := RowsOf(b, c);
    var groups := ReportedAll(GroupsOf(rows, Parents(rows)));
    SortMembers(groups, GroupRank);
    forall g ensures g in groups <==> exists p :: p in Parents(rows) && g == Reported(GroupOf(rows, p)) {
      if g in groups {
        var i :| 0 <= i < |groups| && groups[i] == g;
        assert Parents(rows)[i] in Parents(rows);
      }
      if p :| p in Parents(rows) && g == Reported(GroupOf(rows, p)) {
        var i :| 0 <= i < |Parents(rows)| && Parents(rows)[i] == p;
        assert groups[i] == g;
      }
    }
  }

  ghost predicate CodeBefore(c: Code, d: Code) { c.root < d.root || (c.root == d.root && c.local < d.local) }

  lemma GroupsOnce(rows: seq<BalanceNode>)
    ensures NoRepeats(ReportedAll(GroupsOf(rows, Parents(rows))))
  {
    var groups := ReportedAll(GroupsOf(rows, Parents(rows)));
    ParentsCover(rows);
    hide Parents, RowsUnder;
    forall i, j | 0 <= i < j < |groups| ensures groups[i] != groups[j] {
      assert groups[i].parent == Parents(rows)[i] && groups[j].parent == Parents(rows)[j];
    }
  }

  lemma GroupsSorted(rows: seq<BalanceNode>)
    ensures var sorted := TrialOf(rows).groups;
            && NoRepeats(sorted)
            && forall i, j :: 0 <= i < j < |sorted| ==> AtMost(GroupRank(sorted[i]), GroupRank(sorted[j]))
  {
    var groups := ReportedAll(GroupsOf(rows, Parents(rows)));
    GroupsOnce(rows);
    hide ReportedAll, GroupsOf, Parents;
    SortRepeatsNone(groups, GroupRank);
    SortSorts(groups, GroupRank);
  }

  /** The groups stand by code, one for each colectiva. */
  lemma GroupsInOrder(b: Books, c: Context)
    ensures var groups := TrialOf(RowsOf(b, c)).groups;
            forall i, j :: 0 <= i < j < |groups| ==> CodeBefore(groups[i].parent, groups[j].parent)
  {
    var sorted := TrialOf(RowsOf(b, c)).groups;
    GroupsSorted(RowsOf(b, c));
    GroupMembers(b, c);
    hide TrialOf, RowsOf;
    forall i, j | 0 <= i < j < |sorted| ensures CodeBefore(sorted[i].parent, sorted[j].parent) {
      assert sorted[i] in sorted && sorted[j] in sorted;
      assert sorted[i] != sorted[j];
      assert AtMost(GroupRank(sorted[i]), GroupRank(sorted[j]));
    }
  }

  lemma {:induction false} RowsUnderOnce(rows: seq<BalanceNode>, parent: Code)
    requires Distinct(rows)
    ensures forall i, j :: 0 <= i < j < |RowsUnder(rows, parent)| ==>
              RowsUnder(rows, parent)[i].node.ref != RowsUnder(rows, parent)[j].node.ref
  {
    if rows != [] {
      var k := |rows| - 1;
      RowsUnderOnce(rows[..k], parent);
      var before := RowsUnder(rows[..k], parent);
      RowsUnderAre(rows[..k], parent);
      forall i | 0 <= i < |before| ensures before[i].node.ref != rows[k].ref {
        assert before[i] in before;
        var n :| n in rows[..k] && n.ref.parent == parent && before[i] == RowOf(n);
        var j :| 0 <= j < k && rows[..k][j] == n;
        assert rows[j].ref != rows[k].ref;
      }
    }
  }

  lemma RowsDistinct(b: Books, c: Context)
    ensures Distinct(RowsOf(b, c))
  {
    ByCodeOnce(b.accounts);
    NodesForDistinct(ByCode(b.accounts), b.accounts, LinesIn(b.entries, Computed(c)));
  }

  /** The row of an account, by its group and its place there. */
  ghost predicate RowAt(t: Trial, id: AccountId, i: nat, j: nat) {
    i < |t.groups| && j < |t.groups[i].rows| && t.groups[i].rows[j].node.ref.id == Some(id)
  }

  /** No account has two rows. */
  lemma OneRow(b: Books, c: Context, id: AccountId, i: nat, j: nat, k: nat, l: nat)
    requires RowAt(TrialOf(RowsOf(b, c)), id, i, j) && RowAt(TrialOf(RowsOf(b, c)), id, k, l)
    ensures i == k && j == l
  {
    var t := TrialOf(RowsOf(b, c));
    GroupMembers(b, c);
    GroupsInOrder(b, c);
    assert t.groups[i] in t.groups && t.groups[k] in t.groups;
    var p :| p in Parents(RowsOf(b, c)) && t.groups[i] == Reported(GroupOf(RowsOf(b, c), p));
    var q :| q in Parents(RowsOf(b, c)) && t.groups[k] == Reported(GroupOf(RowsOf(b, c), q));
    hide TrialOf, RowsOf, Parents;
    GroupIsFit(b, c, p);
    GroupIsFit(b, c, q);
    assert t.groups[i].rows[j] in t.groups[i].rows && t.groups[k].rows[l] in t.groups[k].rows;
    assert p == b.accounts[id].parent == q;
    SameRow(b, c, p, id, j, l);
  }

  lemma RefOfRow(b: Books, c: Context, parent: Code, id: AccountId, r: Row)
    requires r in RowsUnder(RowsOf(b, c), parent) && r.node.ref.id == Some(id)
    ensures id < |b.accounts| && r.node.ref == RefOf(b.accounts, id)
  {
    RowsUnderAre(RowsOf(b, c), parent);
    var n :| n in RowsOf(b, c) && n.ref.parent == parent && r == RowOf(n);
    NodesForMembers(ByCode(b.accounts), b.accounts, LinesIn(b.entries, Computed(c)), n);
  }

  lemma SameRow(b: Books, c: Context, parent: Code, id: AccountId, j: nat, l: nat)
    requires j < |RowsUnder(RowsOf(b, c), parent)| && l < |RowsUnder(RowsOf(b, c), parent)|
    requires RowsUnder(RowsOf(b, c), parent)[j].node.ref.id == Some(id)
    requires RowsUnder(RowsOf(b, c), parent)[l].node.ref.id == Some(id)
    ensures j == l
  {
    RowsDistinct(b, c);
    hide RowsOf, RowsUnder, Distinct;
    RowsUnderOnce(RowsOf(b, c), parent);
    RefOfRow(b, c, parent, id, RowsUnder(RowsOf(b, c), parent)[j]);
    RefOfRow(b, c, parent, id, RowsUnder(RowsOf(b, c), parent)[l]);
  }

  /** An account of the company with a line in the window has a row. */
  lemma HasRow(b: Books, c: Context, id: AccountId) returns (i: nat, j: nat)
    requires id < |b.accounts| && b.accounts[id].owner == ThisCompany && HasLine(LinesIn(b.entries, Computed(c)), id)
    ensures RowAt(TrialOf(RowsOf(b, c)), id, i, j)
  {
    var rows, lines := RowsOf(b, c), LinesIn(b.entries, Computed(c));
    var n := BalanceNode(RefOf(b.accounts, id), Turnover(lines, Debit, Only(id)), Turnover(lines, Credit, Only(id)));
    ByCodeOnce(b.accounts);
    NodesForMembers(ByCode(b.accounts), b.accounts, lines, n);
    ParentsCover(rows);
    GroupMembers(b, c);
    RowsUnderAre(rows, n.ref.parent);
    var g := Reported(GroupOf(rows, n.ref.parent));
    assert n in rows && n.ref.parent in Parents(rows);
    assert RowOf(n) in g.rows && g in TrialOf(rows).groups;
    i :| 0 <= i < |TrialOf(rows).groups| && TrialOf(rows).groups[i] == g;
    j :| 0 <= j < |g.rows| && g.rows[j] == RowOf(n);
  }

  /** The trial balance of a context. Every row is that of an account of the company, in the group of its colectiva, with
      its turnovers over the window and its net in the right column; an account with lines in the window has exactly one
      row; groups stand by code, with the sums of their rows and the net of these in the right column. */
  lemma TrialContents(b: Books, c: Context)
    requires JournalOk(b)
    ensures var t := TrialOf(RowsOf(b, c));
            && (forall g :: g in t.groups ==> GroupFits(b, Computed(c), g))
            && (forall i, j :: 0 <= i < j < |t.groups| ==> CodeBefore(t.groups[i].parent, t.groups[j].parent))
            && (forall l :: l in LinesIn(b.entries, Computed(c)) ==> exists i, j :: RowAt(t, l.account, i, j))
            && (forall id, i, j, k, l :: RowAt(t, id, i, j) && RowAt(t, id, k, l) ==> i == k && j == l)
  {
    var t := TrialOf(RowsOf(b, c));
    GroupMembers(b, c);
    GroupsInOrder(b, c);
    LinesOwned(b, Computed(c));
    hide TrialOf, RowsOf, GroupFits, RowAt, JournalOk;
    forall g | g in t.groups ensures GroupFits(b, Computed(c), g) {
      var p :| p in Parents(RowsOf(b, c)) && g == Reported(GroupOf(RowsOf(b, c), p));
      GroupIsFit(b, c, p);
    }
    forall l | l in LinesIn(b.entries, Computed(c)) ensures exists i, j :: RowAt(t, l.account, i, j) {
      var i, j := HasRow(b, c, l.account);
    }
    forall id, i, j, k, l | RowAt(t, id, i, j) && RowAt(t, id, k, l) ensures i == k && j == l {
      OneRow(b, c, id, i, j, k, l);
    }
  }
}
