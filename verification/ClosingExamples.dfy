/** Concrete companies: a closing that succeeds, a sheet that does not balance, a loss that blocks the next year. */
module ClosingExamples {
  import opened Basics
  import opened Model
  import opened Turnovers
  import opened Journal
  import opened AccountResolution
  import opened ClosingSupport
  import opened Exercises
  import opened Balances
  import opened ClosingPlan
  import opened ClosingExecution
  import opened PlanProperties
  import opened ClosingTheorems
  import opened Runs
  import opened ClosingEffects
  import opened ClosingAcceptance
  import ClosingSnapshots

  /** The names of three accounts: the till, the capital and the cost of sales. */
  datatype Names = Names(till: string, owner: string, cost: string)

  function Table(names: Names): seq<Account> {
    [Account(CASH, 1, names.till, 2, true, ThisCompany), Account(Code(3, 1), 1, names.owner, 2, true, ThisCompany),
     Account(Code(4, 1), 1, names.cost, 2, true, ThisCompany)]
  }

  function Inventory(date: Date): Entry {
    Entry(1, date, Opening, [Line(0, Debit, 1000), Line(1, Credit, 1000)], None)
  }

  function Sale(date: Date): Entry { Entry(2, date, Manual, [Line(2, Debit, 300), Line(0, Credit, 300)], None) }

  /** A company with 1000 in the till and 1000 of capital. */
  function OpenedBooks(names: Names, date: Date): Books {
    Books(Table(names), {CASH, INVENTORY, Code(3, 1), Code(4, 1)}, [Inventory(date)], None, [])
  }

  /** The same company, with 300 spent two days later. */
  function LossBooks(names: Names, date: Date): Books {
    OpenedBooks(names, date).(entries := [Inventory(date)] + [Sale(date + 2)])
  }

  function Closing(date: Date): Request { Request(date, date + 1, None, None) }

  function Pick(sel: AccountId -> bool, id: AccountId, amount: int): int { if sel(id) then amount else 0 }

  lemma EntryNet(e: Entry, a: Line, b: Line, sel: AccountId -> bool)
    requires e.lines == [a, b] && a.side == Debit && b.side == Credit
    ensures Net(e.lines, sel) == Pick(sel, a.account, a.amount) - Pick(sel, b.account, b.amount)
  {
    assert [a] + [b] == [a, b];
    NetConcat([a], [b], sel);
    OneLineNet(a, sel);
    OneLineNet(b, sel);
  }

  lemma OneEntryNet(e: Entry, w: Window, sel: AccountId -> bool)
    ensures Net(LinesIn([e], w), sel) == if w.Has(e.date) then Net(e.lines, sel) else 0
  {
    assert [e][1..] == [];
    assert LinesIn([e], w) == if w.Has(e.date) then e.lines else [];
  }

  lemma OpenedNet(names: Names, date: Date, w: Window, sel: AccountId -> bool)
    requires w.Has(date)
    ensures Net(LinesIn(OpenedBooks(names, date).entries, w), sel) == Pick(sel, 0, 1000) - Pick(sel, 1, 1000)
  {
    OneEntryNet(Inventory(date), w, sel);
    EntryNet(Inventory(date), Line(0, Debit, 1000), Line(1, Credit, 1000), sel);
  }

  lemma LossNet(names: Names, date: Date, w: Window, sel: AccountId -> bool)
    ensures Net(LinesIn(LossBooks(names, date).entries, w), sel)
         == (if w.Has(date) then Pick(sel, 0, 1000) - Pick(sel, 1, 1000) else 0)
            + (if w.Has(date + 2) then Pick(sel, 2, 300) - Pick(sel, 0, 300) else 0)
  {
    LinesInConcat([Inventory(date)], [Sale(date + 2)], w);
    NetConcat(LinesIn([Inventory(date)], w), LinesIn([Sale(date + 2)], w), sel);
    OneEntryNet(Inventory(date), w, sel);
    OneEntryNet(Sale(date + 2), w, sel);
    EntryNet(Inventory(date), Line(0, Debit, 1000), Line(1, Credit, 1000), sel);
    EntryNet(Sale(date + 2), Line(2, Debit, 300), Line(0, Credit, 300), sel);
  }

  lemma EntriesPost(names: Names, date: Date)
    ensures Postable(Table(names), Inventory(date).lines) && Postable(Table(names), Sale(date).lines)
  {
    EntryNet(Inventory(date), Line(0, Debit, 1000), Line(1, Credit, 1000), Everything());
    EntryNet(Sale(date), Line(2, Debit, 300), Line(0, Credit, 300), Everything());
    assert Inventory(date).lines[0] in Inventory(date).lines && Inventory(date).lines[1] in Inventory(date).lines;
    assert Sale(date).lines[0] in Sale(date).lines && Sale(date).lines[1] in Sale(date).lines;
  }

  lemma OpenedBooksSound(names: Names, date: Date)
    ensures Inv(OpenedBooks(names, date))
  {
    var b := OpenedBooks(names, date);
    EntriesPost(names, date);
    FreshInv(b.(entries := []));
    FirstEntryKeeps(b.(entries := []), Inventory(date));
  }

  lemma LossBooksSound(names: Names, date: Date)
    ensures Inv(LossBooks(names, date))
  {
    OpenedBooksSound(names, date);
    EntriesPost(names, date + 2);
    PlainKeepsReversals(OpenedBooks(names, date).entries, Sale(date + 2));
    AppendKeeps(OpenedBooks(names, date), Sale(date + 2));
  }

  lemma RoomInTable(b: Books, names: Names)
    requires b.accounts == Table(names) && CASH in b.chart && INVENTORY in b.chart
    ensures SupportRoom(b)
  {
    forall s | s in SUPPORT ensures s.parent in b.chart + CLOSING_PARENTS && HasRoom(b.accounts, s.parent) {
      assert Free(b.accounts, s.parent, 2);
      SupportInChart(s);
    }
  }

  lemma SupportInChart(s: Spec)
    requires s in SUPPORT
    ensures s.parent == CASH || s.parent == INVENTORY || s.parent in CLOSING_PARENTS
  {
  }

  // A closing that succeeds, and a balance sheet that does not balance.

  lemma OpenedBooksFit(names: Names, date: Date, req: Request)
    requires req.closing == date && CountsNatural(req)
    ensures BalancesFit(OpenedBooks(names, date), req) && HasBalances(OpenedBooks(names, date), req)
    ensures ColectivaAt(OpenedBooks(names, date), date, CASH) == 1000
  {
    var b := OpenedBooks(names, date);
    forall parent
      ensures ColectivaAt(b, date, parent) == if parent == CASH then 1000 else if parent == Code(3, 1) then -1000 else 0
    {
      OpenedNet(names, date, UpTo(date), InColectiva(b.accounts, parent));
    }
    forall id: AccountId ensures AccountAt(b, date, id) == if id == 0 then 1000 else if id == 1 then -1000 else 0 {
      OpenedNet(names, date, UpTo(date), Only(id));
    }
    assert AccountAt(b, date, 0) != 0;
  }

  lemma OpenedBooksAdmit(names: Names, req: Request)
    requires req.closing < req.reopening
    ensures Admitted(OpenedBooks(names, req.closing), req)
  {
    assert Inventory(req.closing) in OpenedBooks(names, req.closing).entries;
  }

  /** Instance: a company closes on the day it opens, whatever it counts. */
  lemma OpenedBooksClose(names: Names, req: Request)
    requires req.closing < req.reopening && CountsNatural(req)
    ensures BuildPlan(OpenedBooks(names, req.closing), req).Ok? && Execute(OpenedBooks(names, req.closing), req).Ok?
  {
    var b := OpenedBooks(names, req.closing);
    OpenedBooksSound(names, req.closing);
    OpenedBooksFit(names, req.closing, req);
    OpenedBooksAdmit(names, req);
    RoomInTable(b, names);
    ClosingSucceeds(b, req);
    PlannedIff(b, req);
  }

  lemma OpenedIsNatural(names: Names, date: Date, root: nat)
    requires 1 <= root <= 3
    ensures Unnatural(LoadNodes(OpenedBooks(names, date), date), root) == 0
  {
    var b := OpenedBooks(names, date);
    forall n | n in LoadNodes(b, date) && Rooted(root)(n.ref)
      ensures n.Balance(if root == 1 then Credit else Debit) == 0
    {
      NodesForMembers(ByCode(b.accounts), b.accounts, LinesIn(b.entries, UpTo(date)), n);
      OpenedNet(names, date, UpTo(date), Only(n.ref.id.value));
      assert n.debit - n.credit == Net(LinesIn(b.entries, UpTo(date)), Only(n.ref.id.value));
    }
    NoBalanceSelected(LoadNodes(b, date), if root == 1 then Credit else Debit, Rooted(root));
  }

  /** Instance: 1000 in the till against 1000 of capital, of which only some is counted. The plan is built and carried
      out, although its balance sheet is out of balance by what is missing. */
  lemma ShortageUnbalancesSheet(names: Names, date: Date, counted: int)
    requires 0 <= counted < 1000
    ensures var req := Request(date, date + 1, Some(counted), None);
            var plan := BuildPlan(OpenedBooks(names, date), req);
            && plan.Ok? && Execute(OpenedBooks(names, date), req).Ok? && !plan.value.sheet.IsBalanced()
            && plan.value.sheet.assets - (plan.value.sheet.liabilities + plan.value.sheet.TotalEquity()) == 1000 - counted
  {
    var b, req := OpenedBooks(names, date), Request(date, date + 1, Some(counted), None);
    OpenedBooksClose(names, req);
    OpenedBooksSound(names, date);
    OpenedBooksFit(names, date, req);
    SheetBalancesIff(b, req);
    OpenedIsNatural(names, date, 1);
    OpenedIsNatural(names, date, 2);
    OpenedIsNatural(names, date, 3);
  }

  // A loss year.

  lemma LossBooksFit(names: Names, date: Date, closing: Date)
    requires date + 2 <= closing
    ensures BalancesFit(LossBooks(names, date), Closing(closing)) && HasBalances(LossBooks(names, date), Closing(closing))
    ensures ColectivaAt(LossBooks(names, date), closing, RESULT) == 0
    ensures Net(LinesIn(LossBooks(names, date).entries, UpTo(closing)), InResults(LossBooks(names, date).accounts)) == 300
  {
    var b := LossBooks(names, date);
    forall parent
      ensures ColectivaAt(b, closing, parent)
           == if parent == CASH then 700 else if parent == Code(3, 1) then -1000 else if parent == Code(4, 1) then 300 else 0
    {
      LossNet(names, date, UpTo(closing), InColectiva(b.accounts, parent));
    }
    forall id: AccountId
      ensures AccountAt(b, closing, id) == if id == 0 then 700 else if id == 1 then -1000 else if id == 2 then 300 else 0
    {
      LossNet(names, date, UpTo(closing), Only(id));
    }
    assert AccountAt(b, closing, 0) != 0;
    LossNet(names, date, UpTo(closing), InResults(b.accounts));
  }

  lemma LossJournal(names: Names, date: Date)
    ensures JournalOk(LossBooks(names, date))
  {
    hide LossBooks;
    LossBooksSound(names, date);
  }

  lemma TwoEntriesAdmit(b: Books, req: Request, first: Entry, second: Entry)
    requires b.entries == [first] + [second] && first.source == Opening && b.closedUntil.None?
    requires first.date <= req.closing && second.date <= req.closing < req.reopening
    ensures Admitted(b, req)
  {
    assert b.entries[0] in b.entries;
  }

  lemma LossBooksAdmit(names: Names, date: Date, closing: Date)
    requires date + 2 <= closing
    ensures Admitted(LossBooks(names, date), Closing(closing))
  {
    TwoEntriesAdmit(LossBooks(names, date), Closing(closing), Inventory(date), Sale(date + 2));
  }

  lemma LossYearSucceeds(names: Names, date: Date, closing: Date)
    requires date + 2 <= closing
    ensures Execute(LossBooks(names, date), Closing(closing)).Ok?
    ensures BuildPlan(LossBooks(names, date), Closing(closing)).Ok?
  {
    LossBooksSound(names, date);
    LossBooksAdmit(names, date, closing);
    LossBooksFit(names, date, closing);
    RoomInTable(LossBooks(names, date), names);
    hide Inv, Execute, BuildPlan, Admitted, BalancesFit, HasBalances, SupportRoom;
    ClosingSucceeds(LossBooks(names, date), Closing(closing));
    PlannedIff(LossBooks(names, date), Closing(closing));
  }

  /** Instance: a year with a loss of 300 closes, with a net result of -300. */
  lemma LossYearCloses(names: Names, date: Date, closing: Date)
    requires date + 2 <= closing
    ensures Execute(LossBooks(names, date), Closing(closing)).Ok?
    ensures BuildPlan(LossBooks(names, date), Closing(closing)).Ok?
    ensures BuildPlan(LossBooks(names, date), Closing(closing)).value.sheet.netResult == -300
  {
    LossYearSucceeds(names, date, closing);
    LossJournal(names, date);
    LossBooksFit(names, date, closing);
    hide JournalOk, Execute, BuildPlan, Admitted, BalancesFit, HasBalances;
    NetResultIs(LossBooks(names, date), Closing(closing));
  }

  /** Its snapshot stores the result of the exercise without an account. */
  lemma LossYearNamesNoAccount(names: Names, date: Date, closing: Date)
    requires date + 2 <= closing
    ensures Execute(LossBooks(names, date), Closing(closing)).Ok?
    ensures |Execute(LossBooks(names, date), Closing(closing)).value.snapshots| == 1
    ensures exists l :: l in Execute(LossBooks(names, date), Closing(closing)).value.snapshots[0].lines && l.ref == RESULT_REF
    ensures RESULT_REF.id.None?
  {
    LossYearCloses(names, date, closing);
    LossJournal(names, date);
    NoSnapshots(names, date);
    hide LossBooks, Execute, BuildPlan, JournalOk, Closing;
    ClosingSnapshots.StoredLines(LossBooks(names, date), Closing(closing));
    ClosingSnapshots.VirtualRowIff(LossBooks(names, date), Closing(closing), RESULT_REF);
    OnlyResultLeft(names, date, closing);
  }

  lemma NoSnapshots(names: Names, date: Date)
    ensures LossBooks(names, date).snapshots == []
  {
  }

  lemma OnlyResultLeft(names: Names, date: Date, closing: Date)
    ensures ClosingSnapshots.LeftOn(LossBooks(names, date), Closing(closing), -300, RESULT_REF) == 300
  {
  }

  /** And after it no closing succeeds, whatever its dates and counts. */
  lemma LossYearBlocks(names: Names, date: Date, closing: Date, next: Request)
    requires date + 2 <= closing && Execute(LossBooks(names, date), Closing(closing)).Ok?
    ensures Execute(Execute(LossBooks(names, date), Closing(closing)).value, next).Err?
  {
    var b := LossBooks(names, date);
    LossBooksSound(names, date);
    LossBooksFit(names, date, closing);
    LossYearCloses(names, date, closing);
    var support, plan := ExecuteCloses(b, Closing(closing));
    LossBlocksNextClosing(b, Closing(closing), support, plan, Execute(b, Closing(closing)).value, next);
  }
}
