/** What the three reports read: the journal in order of date and number, and windows of it. */
module ReportQueries {
  import opened Basics
  import opened Sorting
  import opened Model
  import opened Turnovers
  import opened Exercises

  function InWindow(entries: seq<Entry>, w: Window): seq<Entry> {
    if entries == [] then []
    else (if w.Has(entries[0].date) then [entries[0]] else []) + InWindow(entries[1..], w)
  }

  /** The entries of a window ordered by date and number. */
  function Chronological(entries: seq<Entry>, w: Window): seq<Entry> { Sort(InWindow(entries, w), EntryRank) }

  /** What the journal book and the ledger show. */
  function Visible(c: Context): Window { Window(c.visibleFrom, Some(c.until)) }

  /** What the trial balance computes over. */
  function Computed(c: Context): Window { Window(c.computedFrom, Some(c.until)) }

  lemma {:induction false} InWindowLines(entries: seq<Entry>, w: Window)
    ensures LinesIn(InWindow(entries, w), Always()) == LinesIn(entries, w)
  {
    if entries != [] {
      InWindowLines(entries[1..], w);
      var head := if w.Has(entries[0].date) then [entries[0]] else [];
      LinesInConcat(head, InWindow(entries[1..], w), Always());
      assert entries[0..1][1..] == [];
      if head != [] {
        assert head[1..] == [];
        assert LinesIn(head, Always()) == entries[0].lines + [];
      }
    }
  }

  lemma {:induction false} InsertTurnover(e: Entry, entries: seq<Entry>, side: Side, sel: AccountId -> bool)
    ensures Turnover(LinesIn(Insert(e, entries, EntryRank), Always()), side, sel)
         == Turnover(e.lines, side, sel) + Turnover(LinesIn(entries, Always()), side, sel)
  {
    var after := Insert(e, entries, EntryRank);
    if entries == [] || AtMost(EntryRank(e), EntryRank(entries[0])) {
      assert after[1..] == entries;
      TurnoverConcat(e.lines, LinesIn(entries, Always()), side, sel);
    } else {
      InsertTurnover(e, entries[1..], side, sel);
      assert after[1..] == Insert(e, entries[1..], EntryRank);
      TurnoverConcat(entries[0].lines, LinesIn(after[1..], Always()), side, sel);
      TurnoverConcat(entries[0].lines, LinesIn(entries[1..], Always()), side, sel);
    }
  }

  /** Sorting entries changes no turnover. */
  lemma {:induction false} SortTurnover(entries: seq<Entry>, side: Side, sel: AccountId -> bool)
    ensures Turnover(LinesIn(Sort(entries, EntryRank), Always()), side, sel)
         == Turnover(LinesIn(entries, Always()), side, sel)
  {
    if entries != [] {
      SortTurnover(entries[1..], side, sel);
      InsertTurnover(entries[0], Sort(entries[1..], EntryRank), side, sel);
      TurnoverConcat(entries[0].lines, LinesIn(entries[1..], Always()), side, sel);
    }
  }

  /** The chronological entries of a window turn over what the journal does in that window. */
  lemma ChronologicalTurnover(entries: seq<Entry>, w: Window, side: Side, sel: AccountId -> bool)
    ensures Turnover(LinesIn(Chronological(entries, w), Always()), side, sel)
         == Turnover(LinesIn(entries, w), side, sel)
  {
    SortTurnover(InWindow(entries, w), side, sel);
    InWindowLines(entries, w);
  }
}

/** Libro Diario. */
module JournalBook {
  import opened Basics
  import opened Model
  import opened Turnovers
  import opened Exercises
  import opened ReportQueries

  /** A line as printed: the amount stands in one of two columns. */
  datatype BookLine = BookLine(account: AccountId, debit: Option<int>, credit: Option<int>)

  datatype BookEntry = BookEntry(number: nat, date: Date, source: SourceType, lines: seq<BookLine>,
                                 totalDebit: int, totalCredit: int)

  datatype Book = Book(entries: seq<BookEntry>, grandDebit: int, grandCredit: int)

  function BookLineOf(l: Line): BookLine {
    if l.side == Debit then BookLine(l.account, Some(l.amount), None) else BookLine(l.account, None, Some(l.amount))
  }

  function BookEntryOf(e: Entry): BookEntry {
    BookEntry(e.number, e.date, e.source, seq(|e.lines|, i requires 0 <= i < |e.lines| => BookLineOf(e.lines[i])),
              Turnover(e.lines, Debit, Everything()), Turnover(e.lines, Credit, Everything()))
  }

  /** The journal book of a context: its entries in order, with the turnover of the window as grand totals. */
  function BookOf(b: Books, c: Context): Book {
    var entries := Chronological(b.entries, Visible(c));
    Book(seq(|entries|, i requires 0 <= i < |entries| => BookEntryOf(entries[i])),
         Turnover(LinesIn(b.entries, Visible(c)), Debit, Everything()),
         Turnover(LinesIn(b.entries, Visible(c)), Credit, Everything()))
  }

  method BookLines(e: Entry) returns (r: BookEntry)
    ensures r == BookEntryOf(e)
  {
    var lines: seq<BookLine> := [];
    var debit, credit := 0, 0;
    for i := 0 to |e.lines|
      invariant lines == BookEntryOf(e).lines[..i]
      invariant debit == Turnover(e.lines[..i], Debit, Everything())
      invariant credit == Turnover(e.lines[..i], Credit, Everything())
    {
      var l := e.lines[i];
      assert e.lines[..i + 1] == e.lines[..i] + [l];
      TurnoverConcat(e.lines[..i], [l], Debit, Everything());
      TurnoverConcat(e.lines[..i], [l], Credit, Everything());
      assert [l][1..] == [];
      if l.side == Debit {
        lines := lines + [BookLine(l.account, Some(l.amount), None)];
        debit := debit + l.amount;
      } else {
        lines := lines + [BookLine(l.account, None, Some(l.amount))];
        credit := credit + l.amount;
      }
    }
    assert e.lines[..|e.lines|] == e.lines;
    return BookEntry(e.number, e.date, e.source, lines, debit, credit);
  }

  lemma OneMoreEntry(entries: seq<Entry>, i: nat, side: Side)
    requires i < |entries|
    ensures Turnover(LinesIn(entries[..i + 1], Always()), side, Everything())
         == Turnover(LinesIn(entries[..i], Always()), side, Everything())
            + Turnover(entries[i].lines, side, Everything())
  {
    assert entries[..i + 1] == entries[..i] + [entries[i]];
    LinesInConcat(entries[..i], [entries[i]], Always());
    assert [entries[i]][1..] == [];
    assert LinesIn([entries[i]], Always()) == entries[i].lines + [] == entries[i].lines;
    TurnoverConcat(LinesIn(entries[..i], Always()), entries[i].lines, side, Everything());
  }

  /** The totals loop of `get_journal_book`: entry totals added up give the turnover of the window. */
  method GetJournalBook(b: Books, c: Context) returns (r: Book)
    ensures r == BookOf(b, c)
  {
    var entries := Chronological(b.entries, Visible(c));
    var data: seq<BookEntry> := [];
    var grandDebit, grandCredit := 0, 0;
    for i := 0 to |entries|
      invariant |data| == i && forall k :: 0 <= k < i ==> data[k] == BookEntryOf(entries[k])
      invariant grandDebit == Turnover(LinesIn(entries[..i], Always()), Debit, Everything())
      invariant grandCredit == Turnover(LinesIn(entries[..i], Always()), Credit, Everything())
    {
      OneMoreEntry(entries, i, Debit);
      OneMoreEntry(entries, i, Credit);
      var entry := BookLines(entries[i]);
      data := data + [entry];
      grandDebit := grandDebit + entry.totalDebit;
      grandCredit := grandCredit + entry.totalCredit;
    }
    assert entries[..|entries|] == entries;
    ChronologicalTurnover(b.entries, Visible(c), Debit, Everything());
    ChronologicalTurnover(b.entries, Visible(c), Credit, Everything());
    assert data == BookOf(b, c).entries;
    return Book(data, grandDebit, grandCredit);
  }
}

/** Libro Mayor. */
module Ledger {
  import opened Basics
  import opened Model
  import opened Turnovers
  import opened Exercises
  import opened Balances
  import opened ReportQueries

  /** Assets and losses are debit-normal; liabilities, equity and gains are credit-normal. */
  predicate DebitNormal(root: nat) { root == 1 || root == 4 }

  /** `_balance_delta`. */
  function Delta(root: nat, debit: int, credit: int): int {
    if DebitNormal(root) then debit - credit else credit - debit
  }

  datatype Movement = Movement(date: Date, number: nat, debit: Option<int>, credit: Option<int>, balance: int)

  datatype AccountCard = AccountCard(id: AccountId, opening: int, movements: seq<Movement>,
                                     periodDebit: int, periodCredit: int, closing: int)

  /** A posted line with the date and number of its entry. */
  datatype Row = Row(date: Date, number: nat, line: Line)

  function RowsOfEntry(e: Entry, lines: seq<Line>, id: AccountId): seq<Row> {
    if lines == [] then []
    else (if lines[0].account == id then [Row(e.date, e.number, lines[0])] else []) + RowsOfEntry(e, lines[1..], id)
  }

  /** The movements of an account over some entries, in their order. */
  function RowsFor(entries: seq<Entry>, id: AccountId): seq<Row> {
    if entries == [] then [] else RowsOfEntry(entries[0], entries[0].lines, id) + RowsFor(entries[1..], id)
  }

  function LinesOfRows(rows: seq<Row>): seq<Line> { seq(|rows|, i requires 0 <= i < |rows| => rows[i].line) }

  /** The part of the active exercise before what is shown. */
  function OpeningWindow(c: Context): Window
    requires c.visibleFrom.Some?
  {
    Window(c.computedFrom, Some(c.visibleFrom.value - 1))
  }

  /** The balance brought forward: nothing when the report shows everything. */
  function OpeningBalance(b: Books, c: Context, id: AccountId): int
    requires id < |b.accounts|
  {
    if c.visibleFrom.None? then 0
    else
      var lines := LinesIn(b.entries, OpeningWindow(c));
      Delta(b.accounts[id].parent.root, Turnover(lines, Debit, Only(id)), Turnover(lines, Credit, Only(id)))
  }

  /** The k-th movement carries the opening balance plus the signed sum of the movements up to it. */
  function MovementAt(root: nat, opening: int, rows: seq<Row>, k: nat): Movement
    requires k < |rows|
  {
    var l := rows[k].line;
    var lines := LinesOfRows(rows[..k + 1]);
    Movement(rows[k].date, rows[k].number, if l.side == Debit then Some(l.amount) else None,
             if l.side == Debit then None else Some(l.amount),
             opening + Delta(root, Turnover(lines, Debit, Everything()), Turnover(lines, Credit, Everything())))
  }

  /** The card of an account: balances as nets over windows of the journal. */
  function CardOf(b: Books, c: Context, id: AccountId): AccountCard
    requires id < |b.accounts|
  {
    var root := b.accounts[id].parent.root;
    var opening := OpeningBalance(b, c, id);
    var rows := RowsFor(Chronological(b.entries, Visible(c)), id);
    var lines := LinesIn(b.entries, Visible(c));
    var debit, credit := Turnover(lines, Debit, Only(id)), Turnover(lines, Credit, Only(id));
    AccountCard(id, opening, seq(|rows|, k requires 0 <= k < |rows| => MovementAt(root, opening, rows, k)),
                debit, credit, opening + Delta(root, debit, credit))
  }

  lemma {:induction false} RowsOfEntryTurnover(e: Entry, lines: seq<Line>, id: AccountId, side: Side)
    ensures Turnover(LinesOfRows(RowsOfEntry(e, lines, id)), side, Everything()) == Turnover(lines, side, Only(id))
  {
    if lines != [] {
      RowsOfEntryTurnover(e, lines[1..], id, side);
      var rest := RowsOfEntry(e, lines[1..], id);
      if lines[0].account == id {
        assert LinesOfRows([Row(e.date, e.number, lines[0])] + rest) == [lines[0]] + LinesOfRows(rest);
        assert ([lines[0]] + LinesOfRows(rest))[1..] == LinesOfRows(rest);
      } else {
        assert [] + rest == rest;
      }
    }
  }

  lemma {:induction false} RowsTurnover(entries: seq<Entry>, id: AccountId, side: Side)
    ensures Turnover(LinesOfRows(RowsFor(entries, id)), side, Everything())
         == Turnover(LinesIn(entries, Always()), side, Only(id))
  {
    if entries != [] {
      RowsTurnover(entries[1..], id, side);
      var head, rest := RowsOfEntry(entries[0], entries[0].lines, id), RowsFor(entries[1..], id);
      assert LinesOfRows(head + rest) == LinesOfRows(head) + LinesOfRows(rest);
      RowsOfEntryTurnover(entries[0], entries[0].lines, id, side);
      TurnoverConcat(LinesOfRows(head), LinesOfRows(rest), side, Everything());
      TurnoverConcat(entries[0].lines, LinesIn(entries[1..], Always()), side, Only(id));
    }
  }

  lemma OneMoreRow(rows: seq<Row>, k: nat, side: Side)
    requires k < |rows|
    ensures Turnover(LinesOfRows(rows[..k + 1]), side, Everything())
         == Turnover(LinesOfRows(rows[..k]), side, Everything()) + if rows[k].line.side == side then rows[k].line.amount else 0
  {
    assert LinesOfRows(rows[..k + 1]) == LinesOfRows(rows[..k]) + [rows[k].line];
    TurnoverConcat(LinesOfRows(rows[..k]), [rows[k].line], side, Everything());
    assert [rows[k].line][1..] == [];
  }

  /** The loop over one account's movements in `get_ledger`. */
  method BuildCard(b: Books, c: Context, id: AccountId) returns (card: AccountCard)
    requires id < |b.accounts|
    ensures card == CardOf(b, c, id)
  {
    var root := b.accounts[id].parent.root;
    var opening := OpeningBalance(b, c, id);
    var rows := RowsFor(Chronological(b.entries, Visible(c)), id);
    var running, periodDebit, periodCredit := opening, 0, 0;
    var movements: seq<Movement> := [];
    for k := 0 to |rows|
      invariant periodDebit == Turnover(LinesOfRows(rows[..k]), Debit, Everything())
      invariant periodCredit == Turnover(LinesOfRows(rows[..k]), Credit, Everything())
      invariant running == opening + Delta(root, periodDebit, periodCredit)
      invariant |movements| == k && forall i :: 0 <= i < k ==> movements[i] == MovementAt(root, opening, rows, i)
    {
      var l := rows[k].line;
      OneMoreRow(rows, k, Debit);
      OneMoreRow(rows, k, Credit);
      if l.side == Debit {
        periodDebit := periodDebit + l.amount;
      } else {
        periodCredit := periodCredit + l.amount;
      }
      running := running + Delta(root, if l.side == Debit then l.amount else 0, if l.side == Debit then 0 else l.amount);
      movements := movements + [Movement(rows[k].date, rows[k].number, if l.side == Debit then Some(l.amount) else None,
                                         if l.side == Debit then None else Some(l.amount), running)];
    }
    assert rows[..|rows|] == rows;
    RowsTurnover(Chronological(b.entries, Visible(c)), id, Debit);
    RowsTurnover(Chronological(b.entries, Visible(c)), id, Credit);
    ChronologicalTurnover(b.entries, Visible(c), Debit, Only(id));
    ChronologicalTurnover(b.entries, Visible(c), Credit, Only(id));
    card := AccountCard(id, opening, movements, periodDebit, periodCredit, opening + Delta(root, periodDebit, periodCredit));
    assert card.movements == CardOf(b, c, id).movements;
  }

  function Owned(ids: seq<AccountId>, accounts: seq<Account>): seq<AccountId> {
    if ids == [] then []
    else
      var n := |ids| - 1;
      Owned(ids[..n], accounts)
      + if ids[n] < |accounts| && accounts[ids[n]].owner == ThisCompany then [ids[n]] else []
  }

  /** The company's accounts by code, or the one asked for. */
  function Listed(b: Books, account: Option<AccountId>): Option<seq<AccountId>> {
    var all := Owned(ByCode(b.accounts), b.accounts);
    match account
    case None => Some(all)
    case Some(id) => if id < |b.accounts| && b.accounts[id].owner == ThisCompany then Some([id]) else None
  }

  lemma {:induction false} OwnedOnly(ids: seq<AccountId>, accounts: seq<Account>)
    ensures forall id :: id in Owned(ids, accounts) <==>
              id in ids && id < |accounts| && accounts[id].owner == ThisCompany
  {
    if ids != [] {
      var n := |ids| - 1;
      assert ids == ids[..n] + [ids[n]];
      OwnedOnly(ids[..n], accounts);
    }
  }

  lemma ListedInTable(b: Books, account: Option<AccountId>)
    ensures Listed(b, account).Some? ==>
              forall id :: id in Listed(b, account).value ==> id < |b.accounts| && b.accounts[id].owner == ThisCompany
  {
    OwnedOnly(ByCode(b.accounts), b.accounts);
  }

  function CardsOf(b: Books, c: Context, ids: seq<AccountId>): seq<AccountCard>
    requires forall id :: id in ids ==> id < |b.accounts|
  {
    seq(|ids|, i requires 0 <= i < |ids| => assert ids[i] in ids; CardOf(b, c, ids[i]))
  }

  method BuildCards(b: Books, c: Context, ids: seq<AccountId>) returns (cards: seq<AccountCard>)
    requires forall id :: id in ids ==> id < |b.accounts|
    ensures cards == CardsOf(b, c, ids)
  {
    cards := [];
    for i := 0 to |ids|
      invariant |cards| == i && forall k :: 0 <= k < i ==> cards[k] == CardsOf(b, c, ids)[k]
    {
      assert ids[i] in ids;
      var card := BuildCard(b, c, ids[i]);
      cards := cards + [card];
    }
  }

  /** The ledger: a card per listed account, in order; an account of another company is refused. */
  function LedgerOf(b: Books, c: Context, account: Option<AccountId>): Result<seq<AccountCard>> {
    ListedInTable(b, account);
    match Listed(b, account)
    case None => Err(UnknownAccount)
    case Some(ids) => Ok(CardsOf(b, c, ids))
  }

  /** `get_ledger`. */
  method GetLedger(b: Books, c: Context, account: Option<AccountId>) returns (r: Result<seq<AccountCard>>)
    ensures r == LedgerOf(b, c, account)
  {
    ListedInTable(b, account);
    var listed := Listed(b, account);
    if listed.None? {
      return Err(UnknownAccount);
    }
    var cards := BuildCards(b, c, listed.value);
    return Ok(cards);
  }

  // What the cards mean.

  /** The last running balance is the closing balance; without movements the closing balance is the opening one. */
  lemma RunningEndsAtClosing(b: Books, c: Context, id: AccountId)
    requires id < |b.accounts|
    ensures var card := CardOf(b, c, id);
            if card.movements == [] then card.closing == card.opening
            else card.movements[|card.movements| - 1].balance == card.closing
  {
    var rows := RowsFor(Chronological(b.entries, Visible(c)), id);
    assert rows[..|rows|] == rows;
    RowsTurnover(Chronological(b.entries, Visible(c)), id, Debit);
    RowsTurnover(Chronological(b.entries, Visible(c)), id, Credit);
    ChronologicalTurnover(b.entries, Visible(c), Debit, Only(id));
    ChronologicalTurnover(b.entries, Visible(c), Credit, Only(id));
  }

  /** Each running balance is the one before it, or the opening, plus the signed amount of its movement. */
  lemma RunningStep(b: Books, c: Context, id: AccountId, k: nat)
    requires id < |b.accounts| && k < |CardOf(b, c, id).movements|
    ensures var card := CardOf(b, c, id);
            var m := card.movements[k];
            var before := if k == 0 then card.opening else card.movements[k - 1].balance;
            m.balance == before + Delta(b.accounts[id].parent.root, if m.debit.Some? then m.debit.value else 0,
                                        if m.credit.Some? then m.credit.value else 0)
  {
    var rows := RowsFor(Chronological(b.entries, Visible(c)), id);
    OneMoreRow(rows, k, Debit);
    OneMoreRow(rows, k, Credit);
  }
}

/** Balance de Comprobación. */
module TrialBalance {
  import opened Basics
  import opened Sorting
  import opened Model
  import opened Turnovers
  import opened AccountResolution
  import opened Exercises
  import opened Balances
  import opened ReportQueries

  /** The saldo of a row or a group: in one of two columns, or in none. */
  datatype Saldo = Saldo(deudor: Option<int>, acreedor: Option<int>) {
    function On(side: Side): int {
      var column := if side == Debit then deudor else acreedor;
      if column.Some? then column.value else 0
    }
  }

  datatype Row = Row(node: BalanceNode, saldo: Saldo)

  /** A colectiva with its subtotals and its rows, as they accumulate. */
  datatype Group = Group(parent: Code, debit: int, credit: int, rows: seq<Row>)

  /** A colectiva as reported. */
  datatype ReportGroup = ReportGroup(parent: Code, debit: int, credit: int, saldo: Saldo, rows: seq<Row>)

  datatype Trial = Trial(groups: seq<ReportGroup>, grandDebit: int, grandCredit: int,
                         debitBalances: int, creditBalances: int)

  /** `_balance_pair`. */
  function BalancePair(debit: int, credit: int): Saldo {
    var net := debit - credit;
    if net > 0 then Saldo(Some(net), None) else if net < 0 then Saldo(None, Some(-net)) else Saldo(None, None)
  }

  function RowOf(n: BalanceNode): Row { Row(n, BalancePair(n.debit, n.credit)) }

  function Reported(g: Group): ReportGroup {
    ReportGroup(g.parent, g.debit, g.credit, BalancePair(g.debit, g.credit), g.rows)
  }

  function ReportedAll(groups: seq<Group>): seq<ReportGroup> {
    seq(|groups|, i requires 0 <= i < |groups| => Reported(groups[i]))
  }

  /** The accounts with lines in the window, with their turnovers, by code. */
  function RowsOf(b: Books, c: Context): seq<BalanceNode> {
    NodesFor(ByCode(b.accounts), b.accounts, LinesIn(b.entries, Computed(c)))
  }

  function Parents(rows: seq<BalanceNode>): seq<Code> {
    if rows == [] then []
    else
      var n := |rows| - 1;
      var before := Parents(rows[..n]);
      if rows[n].ref.parent in before then before else before + [rows[n].ref.parent]
  }

  function RowsUnder(rows: seq<BalanceNode>, parent: Code): seq<Row> {
    if rows == [] then []
    else
      var n := |rows| - 1;
      RowsUnder(rows[..n], parent) + if rows[n].ref.parent == parent then [RowOf(rows[n])] else []
  }

  function GroupOf(rows: seq<BalanceNode>, parent: Code): Group {
    Group(parent, Sum(rows, Debit, Under(parent)), Sum(rows, Credit, Under(parent)), RowsUnder(rows, parent))
  }

  function GroupsOf(rows: seq<BalanceNode>, parents: seq<Code>): seq<Group> {
    seq(|parents|, i requires 0 <= i < |parents| => GroupOf(rows, parents[i]))
  }

  /** The saldos of some groups on one side. */
  function Saldos(groups: seq<Group>, side: Side): nat {
    if groups == [] then 0
    else
      var g := groups[|groups| - 1];
      Saldos(groups[..|groups| - 1], side) + Positive(if side == Debit then g.debit - g.credit else g.credit - g.debit)
  }

  function GroupRank(g: ReportGroup): (int, int) { (g.parent.root, g.parent.local) }

  /** The trial balance of some rows. */
  function TrialOf(rows: seq<BalanceNode>): Trial {
    var groups := GroupsOf(rows, Parents(rows));
    Trial(Sort(ReportedAll(groups), GroupRank), Sum(rows, Debit, AnyRef()), Sum(rows, Credit, AnyRef()),
          Saldos(groups, Debit), Saldos(groups, Credit))
  }

  lemma {:induction false} ParentsCover(rows: seq<BalanceNode>)
    ensures forall p :: p in Parents(rows) <==> exists n :: n in rows && n.ref.parent == p
    ensures forall i, j :: 0 <= i < j < |Parents(rows)| ==> Parents(rows)[i] != Parents(rows)[j]
  {
    if rows != [] {
      var n := |rows| - 1;
      assert rows == rows[..n] + [rows[n]];
      ParentsCover(rows[..n]);
    }
  }

  lemma {:induction false} NoRowsUnder(rows: seq<BalanceNode>, p: Code, side: Side)
    requires forall n :: n in rows ==> n.ref.parent != p
    ensures Sum(rows, side, Under(p)) == 0 && RowsUnder(rows, p) == []
  {
    if rows != [] {
      var n := |rows| - 1;
      assert rows == rows[..n] + [rows[n]];
      NoRowsUnder(rows[..n], p, side);
    }
  }

  /** The group of a colectiva after one row more. */
  lemma GroupStep(rows: seq<BalanceNode>, i: nat, p: Code)
    requires i < |rows|
    ensures var before := GroupOf(rows[..i], p);
            GroupOf(rows[..i + 1], p)
            == if rows[i].ref.parent == p
               then Group(p, before.debit + rows[i].debit, before.credit + rows[i].credit, before.rows + [RowOf(rows[i])])
               else before
  {
    assert rows[..i + 1][..i] == rows[..i];
  }

  /** The groups of exactly the colectivas that have rows. */
  ghost predicate Accumulated(rows: seq<BalanceNode>, order: seq<Code>, groups: map<Code, Group>) {
    && order == Parents(rows) && (forall p :: p in groups <==> p in order)
    && (forall p :: p in groups ==> groups[p] == GroupOf(rows, p))
  }

  /** The groups with one row more. */
  function WithRow(groups: map<Code, Group>, row: BalanceNode): map<Code, Group> {
    var p := row.ref.parent;
    var g := if p in groups then groups[p] else Group(p, 0, 0, []);
    groups[p := Group(p, g.debit + row.debit, g.credit + row.credit, g.rows + [RowOf(row)])]
  }

  function WithParent(order: seq<Code>, groups: map<Code, Group>, p: Code): seq<Code> {
    if p in groups then order else order + [p]
  }

  lemma NewGroup(rows: seq<BalanceNode>, p: Code)
    requires p !in Parents(rows)
    ensures GroupOf(rows, p) == Group(p, 0, 0, [])
  {
    ParentsCover(rows);
    NoRowsUnder(rows, p, Debit);
    NoRowsUnder(rows, p, Credit);
  }

  lemma OneMoreParent(rows: seq<BalanceNode>, i: nat)
    requires i < |rows|
    ensures Parents(rows[..i + 1])
         == if rows[i].ref.parent in Parents(rows[..i]) then Parents(rows[..i]) else Parents(rows[..i]) + [rows[i].ref.parent]
  {
    assert rows[..i + 1][..i] == rows[..i];
  }

  lemma AccumulatedOneMore(rows: seq<BalanceNode>, i: nat, order: seq<Code>, groups: map<Code, Group>)
    requires i < |rows| && Accumulated(rows[..i], order, groups)
    ensures Accumulated(rows[..i + 1], WithParent(order, groups, rows[i].ref.parent), WithRow(groups, rows[i]))
  {
    hide GroupOf, Parents;
    var parent := rows[i].ref.parent;
    OneMoreParent(rows, i);
    if parent !in groups {
      NewGroup(rows[..i], parent);
    }
    forall p | p in WithRow(groups, rows[i]) ensures WithRow(groups, rows[i])[p] == GroupOf(rows[..i + 1], p) {
      GroupStep(rows, i, p);
    }
  }

  lemma NoneAccumulated()
    ensures Accumulated([], [], map[])
  {
  }

  /** The loop over rows in `get_trial_balance`: groups are a dictionary filled as rows come. */
  method Accumulate(rows: seq<BalanceNode>)
      returns (order: seq<Code>, groups: map<Code, Group>, grandDebit: int, grandCredit: int)
    ensures Accumulated(rows, order, groups)
    ensures grandDebit == Sum(rows, Debit, AnyRef()) && grandCredit == Sum(rows, Credit, AnyRef())
  {
    hide Accumulated;
    order, groups, grandDebit, grandCredit := [], map[], 0, 0;
    NoneAccumulated();
    for i := 0 to |rows|
      invariant Accumulated(rows[..i], order, groups)
      invariant grandDebit == Sum(rows[..i], Debit, AnyRef())
      invariant grandCredit == Sum(rows[..i], Credit, AnyRef())
    {
      var row := rows[i];
      var parent := row.ref.parent;
      ghost var before := (order, groups);
      assert rows[..i + 1][..i] == rows[..i];
      AccumulatedOneMore(rows, i, order, groups);
      if parent !in groups {
        order := order + [parent];
        groups := groups[parent := Group(parent, 0, 0, [])];
      }
      var g := groups[parent];
      var saldo := BalancePair(row.debit, row.credit);
      groups := groups[parent := Group(parent, g.debit + row.debit, g.credit + row.credit, g.rows + [Row(row, saldo)])];
      assert order == WithParent(before.0, before.1, parent) && groups == WithRow(before.1, row);
      grandDebit := grandDebit + row.debit;
      grandCredit := grandCredit + row.credit;
    }
    assert rows[..|rows|] == rows;
  }

  lemma SaldosOfOneMore(groups: seq<Group>, g: Group, side: Side)
    ensures Saldos(groups + [g], side) == Saldos(groups, side) + Saldos([g], side)
    ensures Saldos([g], side) == Positive(if side == Debit then g.debit - g.credit else g.credit - g.debit)
  {
    assert (groups + [g])[..|groups|] == groups && [g][..0] == [];
  }

  lemma OneMoreReported(rows: seq<BalanceNode>, order: seq<Code>, i: nat)
    requires i < |order|
    ensures GroupsOf(rows, order[..i + 1]) == GroupsOf(rows, order[..i]) + [GroupOf(rows, order[i])]
    ensures ReportedAll(GroupsOf(rows, order[..i + 1]))
         == ReportedAll(GroupsOf(rows, order[..i])) + [Reported(GroupOf(rows, order[i]))]
  {
  }

  /** `get_trial_balance`. */
  method GetTrialBalance(b: Books, c: Context) returns (r: Trial)
    ensures r == TrialOf(RowsOf(b, c))
  {
    var rows := RowsOf(b, c);
    var order, groups, grandDebit, grandCredit := Accumulate(rows);
    var data: seq<ReportGroup> := [];
    ghost var done: seq<Group> := [];
    var debitBalances, creditBalances := 0, 0;
    for i := 0 to |order|
      invariant done == GroupsOf(rows, order[..i]) && data == ReportedAll(done)
      invariant debitBalances == Saldos(done, Debit)
      invariant creditBalances == Saldos(done, Credit)
    {
      var group := groups[order[i]];
      var net := group.debit - group.credit;
      debitBalances := debitBalances + Max(net, 0);
      creditBalances := creditBalances + Max(-net, 0);
      SaldosOfOneMore(done, group, Debit);
      SaldosOfOneMore(done, group, Credit);
      OneMoreReported(rows, order, i);
      var saldo := BalancePair(group.debit, group.credit);
      data := data + [ReportGroup(group.parent, group.debit, group.credit, saldo, group.rows)];
      done := done + [group];
    }
    assert order[..|order|] == order;
    return Trial(Sort(data, GroupRank), grandDebit, grandCredit, debitBalances, creditBalances);
  }
}
