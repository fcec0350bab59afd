/** What the snapshot of a closing stores: which accounts it names, and how it stands to the balance sheet beside it. */
module ClosingSnapshots {
  import opened Basics
  import opened Sorting
  import opened Model
  import opened Turnovers
  import opened Journal
  import opened AccountResolution
  import opened ClosingSupport
  import opened Balances
  import opened ClosingPlan
  import opened ClosingExecution
  import opened PlanProperties
  import opened ClosingTheorems
  import opened ClosingEffects
  import opened ClosingAcceptance
  import ClosingService

  // Rows without an account.

  /** What a plan leaves on a virtual account: the count's difference, or the net result. */
  function VirtualNet(cash: int, inventory: int, netResult: int, ref: AccountRef): int {
    (if ref == CASH_REF then cash else 0) + (if ref == INVENTORY_REF then inventory else 0)
    - (if ref == RESULT_REF then netResult else 0)
  }

  /** What an adjustment drafts for one account outside the result rubros. */
  lemma AdjustmentFor(nodes: seq<BalanceNode>, date: Date, actual: Option<int>,
                      asset: AccountRef, surplus: AccountRef, shortage: AccountRef, ref: AccountRef)
    requires surplus.parent.root == 5 && shortage.parent.root == 4 && ref.parent.root <= 3
    ensures DraftNet(LinesOf(Adjustments(nodes, date, actual, asset, surplus, shortage)), Exactly(ref))
         == if ref == asset then Difference(actual, SumNet(nodes, Under(asset.parent))) else 0
  {
    AdjustmentLines(nodes, date, actual, asset, surplus, shortage);
    if actual.Some? && actual.value != SumNet(nodes, Under(asset.parent)) {
      var (a, b) := Pair(actual.value - SumNet(nodes, Under(asset.parent)), asset, surplus, shortage);
      TwoLines(a, b, Exactly(ref));
    }
  }

  lemma AdjustedFor(accounts: seq<Account>, loaded: seq<BalanceNode>, req: Request, ref: AccountRef)
    requires Balanced(accounts, loaded) && ref.parent.root <= 3
    ensures SumNet(Adjusted(loaded, req), Exactly(ref))
         == SumNet(loaded, Exactly(ref))
            + VirtualNet(Difference(req.cash, SumNet(loaded, Under(CASH))),
                         Difference(req.inventory, SumNet(loaded, Under(INVENTORY))), 0, ref)
  {
    AdjustmentRefsOk();
    var cash := CashDrafts(loaded, req);
    var counted := ApplyLines(loaded, LinesOf(cash));
    var inventory := InventoryDrafts(counted, req);
    AdjustmentStage(accounts, loaded, req.closing, req.cash, CASH_REF, CASH_SURPLUS, CASH_SHORTAGE, INVENTORY);
    AdjustmentFor(loaded, req.closing, req.cash, CASH_REF, CASH_SURPLUS, CASH_SHORTAGE, ref);
    AdjustmentFor(counted, req.closing, req.inventory, INVENTORY_REF, INVENTORY_SURPLUS, INVENTORY_SHORTAGE, ref);
    LinesOfConcat(cash, inventory);
    DraftNetConcat(LinesOf(cash), LinesOf(inventory), Exactly(ref));
    AdjustedBalance(accounts, loaded, req);
    VirtualCanonical(accounts, loaded, LinesOf(cash + inventory));
    AppliedNet(accounts, loaded, LinesOf(cash + inventory), Exactly(ref));
  }

  /** What a plan leaves on a virtual account, in terms of the journal and the counts. */
  function LeftOn(b: Books, req: Request, netResult: int, ref: AccountRef): int {
    VirtualNet(Difference(req.cash, ColectivaAt(b, req.closing, CASH)),
               Difference(req.inventory, ColectivaAt(b, req.closing, INVENTORY)), netResult, ref)
  }

  lemma FinalVirtual(b: Books, req: Request, ref: AccountRef)
    requires JournalOk(b) && ref.id.None? && ref.parent.root <= 3
    ensures SumNet(Final(LoadNodes(b, req.closing), req), Exactly(ref))
         == LeftOn(b, req, SheetOf(Adjusted(LoadNodes(b, req.closing), req)).netResult, ref)
  {
    var loaded := LoadNodes(b, req.closing);
    LoadedBalanced(b, req.closing);
    NodesForReal(ByCode(b.accounts), b.accounts, LinesIn(b.entries, UpTo(req.closing)));
    NoneSelected(loaded, Exactly(ref));
    AdjustedFor(b.accounts, loaded, req, ref);
    AdjustedBalance(b.accounts, loaded, req);
    ResultsMoveOnlyResult(b.accounts, Adjusted(loaded, req), req.closing, Exactly(ref));
    LoadedColectiva(b, req.closing, CASH);
    LoadedColectiva(b, req.closing, INVENTORY);
  }

  lemma FinalDistinct(b: Books, req: Request)
    requires JournalOk(b)
    ensures Distinct(Final(LoadNodes(b, req.closing), req))
  {
    var loaded := LoadNodes(b, req.closing);
    var adjustments := LinesOf(AdjustmentDrafts(loaded, req));
    var adjusted := Adjusted(loaded, req);
    LoadedBalanced(b, req.closing);
    LoadedDistinct(b, req.closing);
    AdjustedBalance(b.accounts, loaded, req);
    VirtualCanonical(b.accounts, loaded, adjustments);
    ApplyLinesDistinct(b.accounts, loaded, adjustments);
    ResultDraftsOk(b.accounts, adjusted, req.closing);
    LinesOfCanonical(b.accounts, adjusted, ResultDrafts(adjusted, req.closing));
    ApplyLinesDistinct(b.accounts, adjusted, LinesOf(ResultDrafts(adjusted, req.closing)));
  }

  lemma {:induction false} RowsMembers(nodes: seq<BalanceNode>, l: SnapshotLine)
    ensures l in SnapshotRows(nodes) <==>
              exists n :: n in nodes && Patrimonial()(n.ref) && n.debit != n.credit
                          && l == SnapshotLine(n.ref, n.Balance(Debit), n.Balance(Credit))
  {
    if nodes != [] {
      var k := |nodes| - 1;
      assert nodes == nodes[..k] + [nodes[k]];
      RowsMembers(nodes[..k], l);
    }
  }

  /** The snapshot has a row for a patrimonial account exactly when its nodes hold something. */
  lemma RowForIff(nodes: seq<BalanceNode>, ref: AccountRef)
    requires Distinct(nodes) && Patrimonial()(ref)
    ensures (exists l :: l in SnapshotLines(nodes) && l.ref == ref) <==> SumNet(nodes, Exactly(ref)) != 0
  {
    SortMembers(SnapshotRows(nodes), SnapshotRank);
    if l :| l in SnapshotLines(nodes) && l.ref == ref {
      RowsMembers(nodes, l);
      var n :| n in nodes && n.debit != n.credit && n.ref == ref;
      var i :| 0 <= i < |nodes| && nodes[i] == n;
      NodeNet(nodes, i);
    }
    if SumNet(nodes, Exactly(ref)) != 0 {
      if forall n :: n in nodes && Exactly(ref)(n.ref) ==> n.debit == n.credit {
        NoneSelected(nodes, Exactly(ref));
      }
      var n :| n in nodes && Exactly(ref)(n.ref) && n.debit != n.credit;
      var row := SnapshotLine(n.ref, n.Balance(Debit), n.Balance(Credit));
      RowsMembers(nodes, row);
      assert row in SnapshotLines(nodes) && row.ref == ref;
    }
  }

  /** The snapshot of a plan has a row for a virtual account exactly when the plan leaves something on it: a difference
      of its count, or the net result. */
  lemma VirtualRowIff(b: Books, req: Request, ref: AccountRef)
    requires JournalOk(b) && BuildPlan(b, req).Ok? && ref.id.None? && Patrimonial()(ref)
    ensures var plan := BuildPlan(b, req).value;
            (exists l :: l in plan.snapshotLines && l.ref == ref) <==> LeftOn(b, req, plan.sheet.netResult, ref) != 0
  {
    FinalDistinct(b, req);
    RowForIff(Final(LoadNodes(b, req.closing), req), ref);
    FinalVirtual(b, req, ref);
  }

  /** No count differs from the books, and there is no net result. */
  predicate NothingVirtual(b: Books, req: Request, netResult: int) {
    && Difference(req.cash, ColectivaAt(b, req.closing, CASH)) == 0
    && Difference(req.inventory, ColectivaAt(b, req.closing, INVENTORY)) == 0
    && netResult == 0
  }

  lemma RowsArePatrimonial(nodes: seq<BalanceNode>, l: SnapshotLine)
    requires l in SnapshotLines(nodes)
    ensures Patrimonial()(l.ref)
  {
    SortMembers(SnapshotRows(nodes), SnapshotRank);
    RowsMembers(nodes, l);
  }

  lemma NothingLeftOn(b: Books, req: Request, netResult: int)
    ensures NothingVirtual(b, req, netResult) <==>
              LeftOn(b, req, netResult, CASH_REF) == 0 && LeftOn(b, req, netResult, INVENTORY_REF) == 0
              && LeftOn(b, req, netResult, RESULT_REF) == 0
    ensures NothingVirtual(b, req, netResult) ==> forall ref :: LeftOn(b, req, netResult, ref) == 0
  {
  }

  /** Every row of a snapshot names an account exactly when no count differs from the books and there is no net result:
      the year neither gained nor lost. */
  lemma SnapshotAccountsIff(b: Books, req: Request)
    requires JournalOk(b) && BuildPlan(b, req).Ok?
    ensures var plan := BuildPlan(b, req).value;
            (forall l :: l in plan.snapshotLines ==> l.ref.id.Some?) <==> NothingVirtual(b, req, plan.sheet.netResult)
  {
    var plan := BuildPlan(b, req).value;
    NothingLeftOn(b, req, plan.sheet.netResult);
    if forall l :: l in plan.snapshotLines ==> l.ref.id.Some? {
      VirtualRowIff(b, req, CASH_REF);
      VirtualRowIff(b, req, INVENTORY_REF);
      VirtualRowIff(b, req, RESULT_REF);
    }
    if NothingVirtual(b, req, plan.sheet.netResult) {
      forall l | l in plan.snapshotLines ensures l.ref.id.Some? {
        RowsArePatrimonial(Final(LoadNodes(b, req.closing), req), l);
        if l.ref.id.None? {
          VirtualRowIff(b, req, l.ref);
        }
      }
    }
  }

  /** Carrying out a plan stores its snapshot lines. */
  lemma StoredLines(b: Books, req: Request)
    requires JournalOk(b) && Execute(b, req).Ok?
    ensures BuildPlan(b, req).Ok? && |Execute(b, req).value.snapshots| == |b.snapshots| + 1
    ensures Execute(b, req).value.snapshots[|b.snapshots|].lines == BuildPlan(b, req).value.snapshotLines
  {
    hide BuildPlan, Execute, JournalOk;
    var support, plan := ExecuteCloses(b, req);
  }

  /** So does every row of the snapshot that an executed closing stores. */
  lemma StoredAccountsIff(b: Books, req: Request)
    requires JournalOk(b) && Execute(b, req).Ok?
    ensures BuildPlan(b, req).Ok? && |Execute(b, req).value.snapshots| == |b.snapshots| + 1
    ensures (forall l :: l in Execute(b, req).value.snapshots[|b.snapshots|].lines ==> l.ref.id.Some?) <==>
              NothingVirtual(b, req, BuildPlan(b, req).value.sheet.netResult)
  {
    hide BuildPlan, Execute, NothingVirtual, JournalOk;
    StoredLines(b, req);
    SnapshotAccountsIff(b, req);
  }

  // The snapshot beside the balance sheet.

  /** The result closing leaves the balances of assets and liabilities as they were. */
  lemma FinalBalance(accounts: seq<Account>, adjusted: seq<BalanceNode>, date: Date, side: Side, root: nat)
    requires CanonicalNodes(accounts, adjusted) && (root == 1 || root == 2)
    ensures SumBalance(ApplyLines(adjusted, LinesOf(ResultDrafts(adjusted, date))), side, Rooted(root))
         == SumBalance(adjusted, side, Rooted(root))
  {
    var lines := LinesOf(ResultDrafts(adjusted, date));
    ResultDraftsOk(accounts, adjusted, date);
    LinesOfCanonical(accounts, adjusted, ResultDrafts(adjusted, date));
    ResultRubros(adjusted, date);
    ClosingService.OtherRubroKept(accounts, adjusted, lines, side, root);
    CancellingSums(adjusted, side, Rooted(root), AnyRef());
    CancellingSums(ApplyLines(adjusted, lines), side, Rooted(root), AnyRef());
    SameBalance(adjusted, side, Both(Rooted(root), AnyRef()), Rooted(root));
    SameBalance(ApplyLines(adjusted, lines), side, Both(Rooted(root), AnyRef()), Rooted(root));
  }

  /** Result entries touch the result rubros and equity only. */
  lemma ResultRubros(adjusted: seq<BalanceNode>, date: Date)
    ensures forall l :: l in LinesOf(ResultDrafts(adjusted, date)) ==> 3 <= l.ref.parent.root <= 5
  {
    CancellingLines(adjusted, Debit, Rooted(4));
    CancellingLines(adjusted, Credit, Rooted(5));
    LinesOfConcat(LossDrafts(adjusted, date), GainDrafts(adjusted, date));
    LinesOfOne(Draft(date, ResultClosing, LossLines(adjusted)));
    LinesOfOne(Draft(date, ResultClosing, GainLines(adjusted)));
  }

  lemma EquityNet(accounts: seq<Account>, adjusted: seq<BalanceNode>, date: Date)
    requires CanonicalNodes(accounts, adjusted)
    ensures -SumNet(ApplyLines(adjusted, LinesOf(ResultDrafts(adjusted, date))), Rooted(3))
         == SheetOf(adjusted).TotalEquity() - Unnatural(adjusted, 3)
  {
    ResultsMoveOnlyResult(accounts, adjusted, date, Rooted(3));
    NetIsBalances(adjusted, Rooted(3));
  }

  lemma SnapshotRubro(nodes: seq<BalanceNode>, root: nat)
    requires 1 <= root <= 3
    ensures SnapshotTotal(SnapshotLines(nodes), Debit, Rooted(root)) == SumBalance(nodes, Debit, Rooted(root))
    ensures SnapshotTotal(SnapshotLines(nodes), Credit, Rooted(root)) == SumBalance(nodes, Credit, Rooted(root))
    ensures SnapshotNet(SnapshotLines(nodes), Rooted(root)) == SumNet(nodes, Rooted(root))
  {
    SnapshotCarries(nodes, Rooted(root));
    SameBalance(nodes, Debit, Both(Patrimonial(), Rooted(root)), Rooted(root));
    SameBalance(nodes, Credit, Both(Patrimonial(), Rooted(root)), Rooted(root));
    SameNet(nodes, Both(Patrimonial(), Rooted(root)), Rooted(root));
  }

  /** The snapshot and the balance sheet of one closing. The debits of the asset rows are the assets of the sheet and the
      credits of the liability rows its liabilities; the other sides of these rows are the balances on the wrong side,
      with the shortages of the counts. What the equity rows net is the total equity of the sheet, less the debit
      balances of equity accounts. */
  lemma SnapshotMeetsSheet(b: Books, req: Request)
    requires JournalOk(b) && BuildPlan(b, req).Ok?
    ensures var plan := BuildPlan(b, req).value;
            var loaded := LoadNodes(b, req.closing);
            && SnapshotTotal(plan.snapshotLines, Debit, Rooted(1)) == plan.sheet.assets
            && SnapshotTotal(plan.snapshotLines, Credit, Rooted(1))
               == Unnatural(loaded, 1) + Shortage(req.cash, ColectivaAt(b, req.closing, CASH))
                  + Shortage(req.inventory, ColectivaAt(b, req.closing, INVENTORY))
            && SnapshotTotal(plan.snapshotLines, Credit, Rooted(2)) == plan.sheet.liabilities
            && SnapshotTotal(plan.snapshotLines, Debit, Rooted(2)) == Unnatural(loaded, 2)
            && -SnapshotNet(plan.snapshotLines, Rooted(3)) == plan.sheet.TotalEquity() - Unnatural(loaded, 3)
  {
    var loaded := LoadNodes(b, req.closing);
    LoadedBalanced(b, req.closing);
    NodesForReal(ByCode(b.accounts), b.accounts, LinesIn(b.entries, UpTo(req.closing)));
    AdjustedBalance(b.accounts, loaded, req);
    LoadedColectiva(b, req.closing, CASH);
    LoadedColectiva(b, req.closing, INVENTORY);
    FinalMeetsSheet(b.accounts, loaded, req);
    SnapshotRubro(Final(loaded, req), 1);
    SnapshotRubro(Final(loaded, req), 2);
    SnapshotRubro(Final(loaded, req), 3);
  }

  lemma FinalMeetsSheet(accounts: seq<Account>, loaded: seq<BalanceNode>, req: Request)
    requires Balanced(accounts, loaded) && Loaded(loaded)
    ensures var final, sheet := Final(loaded, req), SheetOf(Adjusted(loaded, req));
            && SumBalance(final, Debit, Rooted(1)) == sheet.assets
            && SumBalance(final, Credit, Rooted(1))
               == Unnatural(loaded, 1) + Shortage(req.cash, SumNet(loaded, Under(CASH)))
                  + Shortage(req.inventory, SumNet(loaded, Under(INVENTORY)))
            && SumBalance(final, Credit, Rooted(2)) == sheet.liabilities
            && SumBalance(final, Debit, Rooted(2)) == Unnatural(loaded, 2)
            && -SumNet(final, Rooted(3)) == sheet.TotalEquity() - Unnatural(loaded, 3)
  {
    var adjusted := Adjusted(loaded, req);
    AdjustedBalance(accounts, loaded, req);
    FinalBalance(accounts, adjusted, req.closing, Debit, 1);
    FinalBalance(accounts, adjusted, req.closing, Credit, 1);
    FinalBalance(accounts, adjusted, req.closing, Debit, 2);
    FinalBalance(accounts, adjusted, req.closing, Credit, 2);
    EquityNet(accounts, adjusted, req.closing);
    AdjustedUnnatural(accounts, loaded, req, 1);
    AdjustedUnnatural(accounts, loaded, req, 2);
    AdjustedUnnatural(accounts, loaded, req, 3);
  }

  /** Snapshot rows stand by account code, a virtual account at its colectiva, before the accounts of that colectiva. */
  lemma SnapshotInOrder(nodes: seq<BalanceNode>, i: nat, j: nat)
    requires i < j < |SnapshotLines(nodes)|
    ensures var a, b := SnapshotLines(nodes)[i].ref, SnapshotLines(nodes)[j].ref;
            var x, y := a.parent.root * 100 + a.parent.local, b.parent.root * 100 + b.parent.local;
            x < y || (x == y && (a.suffix.None? || (b.suffix.Some? && a.suffix.value <= b.suffix.value) || a.suffix == Some(0)))
  {
    SnapshotByCode(nodes);
    assert AtMost(SnapshotRank(SnapshotLines(nodes)[i]), SnapshotRank(SnapshotLines(nodes)[j]));
  }
}
