/** What a closing does to each colectiva and to the balance sheet, in terms of the journal before it. */
module ClosingEffects {
  import opened Basics
  import opened Model
  import opened Turnovers
  import opened Journal
  import opened AccountResolution
  import opened ClosingSupport
  import opened Exercises
  import opened Balances
  import opened ClosingPlan
  import opened ClosingExecution
  import opened PlanProperties
  import opened ClosingTheorems
  import opened Runs

  /** The net of a colectiva in the journal up to a date. */
  function ColectivaAt(b: Books, until: Date, parent: Code): int {
    Net(LinesIn(b.entries, UpTo(until)), InColectiva(b.accounts, parent))
  }

  function CountOf(req: Request, parent: Code): Option<int> {
    if parent == CASH then req.cash else if parent == INVENTORY then req.inventory else None
  }

  /** The net the closing goes by: the count where there is one, the books otherwise. */
  function CountedNet(b: Books, req: Request, parent: Code): int {
    match CountOf(req, parent)
    case Some(actual) => actual
    case None => ColectivaAt(b, req.closing, parent)
  }

  /** The loaded nodes net, for references seen as some accounts, to what the journal nets for those accounts. */
  lemma LoadedNet(b: Books, until: Date, p: Selection, sel: AccountId -> bool)
    requires JournalOk(b)
    requires forall id: AccountId :: id < |b.accounts| ==> p(RefOf(b.accounts, id)) == sel(id)
    ensures SumNet(LoadNodes(b, until), p) == Net(LinesIn(b.entries, UpTo(until)), sel)
  {
    var lines := LinesIn(b.entries, UpTo(until));
    LinesOwned(b, UpTo(until));
    forall side ensures Sum(LoadNodes(b, until), side, p) == Turnover(lines, side, sel) {
      LoadedSums(b, until, side, p);
      SameTurnover(lines, side, Seen(b.accounts, p), sel);
    }
  }

  lemma LoadedColectiva(b: Books, until: Date, parent: Code)
    requires JournalOk(b)
    ensures SumNet(LoadNodes(b, until), Under(parent)) == ColectivaAt(b, until, parent)
  {
    LoadedNet(b, until, Under(parent), InColectiva(b.accounts, parent));
  }

  /** Adjustments leave a colectiva that is not counted as it was. */
  lemma AdjustedColectiva(accounts: seq<Account>, loaded: seq<BalanceNode>, req: Request, parent: Code)
    requires Balanced(accounts, loaded) && parent.root <= 3 && CountOf(req, parent).None?
    ensures SumNet(Adjusted(loaded, req), Under(parent)) == SumNet(loaded, Under(parent))
  {
    AdjustmentRefsOk();
    AdjustedBalance(accounts, loaded, req);
    var cash := CashDrafts(loaded, req);
    var counted := ApplyLines(loaded, LinesOf(cash));
    var inventory := InventoryDrafts(counted, req);
    LinesOfConcat(cash, inventory);
    ApplyConcat(loaded, LinesOf(cash), LinesOf(inventory));
    if parent == CASH {
      assert cash == [];
    } else {
      AdjustmentStage(accounts, loaded, req.closing, req.cash, CASH_REF, CASH_SURPLUS, CASH_SHORTAGE, parent);
    }
    if parent == INVENTORY {
      assert inventory == [];
    } else {
      AdjustmentStage(accounts, loaded, req.closing, req.cash, CASH_REF, CASH_SURPLUS, CASH_SHORTAGE, INVENTORY);
      AdjustmentStage(accounts, counted, req.closing, req.inventory, INVENTORY_REF, INVENTORY_SURPLUS,
                      INVENTORY_SHORTAGE, parent);
    }
  }

  /** After the adjustments every patrimonial colectiva stands at the net the closing goes by. */
  lemma AdjustedIsCounted(b: Books, req: Request, parent: Code)
    requires JournalOk(b) && parent.root <= 3
    ensures SumNet(Adjusted(LoadNodes(b, req.closing), req), Under(parent)) == CountedNet(b, req, parent)
  {
    LoadedBalanced(b, req.closing);
    if CountOf(req, parent).Some? {
      AdjustedBalance(b.accounts, LoadNodes(b, req.closing), req);
    } else {
      AdjustedColectiva(b.accounts, LoadNodes(b, req.closing), req, parent);
      LoadedColectiva(b, req.closing, parent);
    }
  }

  // When a closing is turned down for its balances.

  /** Assets are not in credit, liabilities and equity not in debit. */
  predicate NaturalSide(parent: Code, net: int) {
    (parent.root == 1 ==> net >= 0) && (parent.root == 2 || parent.root == 3 ==> net <= 0)
  }

  lemma {:induction false} NoNodeNoNet(nodes: seq<BalanceNode>, parent: Code)
    requires forall n :: n in nodes ==> n.ref.parent != parent
    ensures SumNet(nodes, Under(parent)) == 0
  {
    if nodes != [] {
      var k := |nodes| - 1;
      assert nodes == nodes[..k] + [nodes[k]];
      NoNodeNoNet(nodes[..k], parent);
    }
  }

  /** The guard accepts nodes exactly when every colectiva is on its natural side as a whole. */
  lemma NaturalVerdictIff(nodes: seq<BalanceNode>)
    ensures NaturalVerdict(nodes).None? <==> forall parent :: NaturalSide(parent, SumNet(nodes, Under(parent)))
  {
    if NaturalVerdict(nodes).None? {
      forall parent ensures NaturalSide(parent, SumNet(nodes, Under(parent))) {
        if n :| n in nodes && n.ref.parent == parent {
          assert !WrongSide(nodes, n, 1, Debit) && !WrongSide(nodes, n, 2, Credit) && !WrongSide(nodes, n, 3, Credit);
        } else {
          NoNodeNoNet(nodes, parent);
        }
      }
    } else if forall parent :: NaturalSide(parent, SumNet(nodes, Under(parent))) {
      forall n | n in nodes ensures NaturalSide(n.ref.parent, SumNet(nodes, Under(n.ref.parent))) {
      }
      assert false;
    }
  }

  /** A closing passes the guard of natural balances exactly when each patrimonial colectiva, at its count or else
      as the journal has it on the closing date, is on its natural side. */
  lemma NaturalGuardIff(b: Books, req: Request)
    requires JournalOk(b)
    ensures NaturalVerdict(Adjusted(LoadNodes(b, req.closing), req)).None?
       <==> forall parent :: NaturalSide(parent, CountedNet(b, req, parent))
  {
    var adjusted := Adjusted(LoadNodes(b, req.closing), req);
    NaturalVerdictIff(adjusted);
    forall parent
      ensures NaturalSide(parent, SumNet(adjusted, Under(parent))) <==> NaturalSide(parent, CountedNet(b, req, parent))
    {
      if parent.root <= 3 {
        AdjustedIsCounted(b, req, parent);
      }
    }
  }

  // What a closing moves.

  /** Closing the results moves no patrimonial colectiva but the result of the exercise, and that one by the net
      result of the balance sheet. */
  lemma ResultsMove(accounts: seq<Account>, adjusted: seq<BalanceNode>, date: Date, parent: Code)
    requires CanonicalNodes(accounts, adjusted) && parent.root <= 3
    ensures SumNet(ApplyLines(adjusted, LinesOf(ResultDrafts(adjusted, date))), Under(parent))
         == SumNet(adjusted, Under(parent)) - if parent == RESULT then SheetOf(adjusted).netResult else 0
  {
    var lines := LinesOf(ResultDrafts(adjusted, date));
    ResultDraftsOk(accounts, adjusted, date);
    LinesOfCanonical(accounts, adjusted, ResultDrafts(adjusted, date));
    AppliedNet(accounts, adjusted, lines, Under(parent));
    ResultMoves(adjusted, date, Under(parent));
    OtherRoot(adjusted, Debit, 4, parent);
    OtherRoot(adjusted, Credit, 5, parent);
  }

  /** After a closing and its reopening, each patrimonial colectiva stands at its count, or else where it stood
      before; the result of the exercise has taken on the net result of the balance sheet. */
  lemma ClosingMoves(b: Books, req: Request, support: Index, plan: Plan, after: Books, parent: Code)
    requires Closes(b, req, support, plan, after) && parent.root <= 3
    ensures Net(LinesIn(after.entries, Always()), InColectiva(after.accounts, parent))
         == CountedNet(b, req, parent) - if parent == RESULT then plan.sheet.netResult else 0
  {
    var loaded := LoadNodes(b, req.closing);
    LoadedBalanced(b, req.closing);
    AdjustedBalance(b.accounts, loaded, req);
    FinalIsSettled(b.accounts, loaded, req);
    ClosedNet(b, req, support, plan, after, InColectiva(after.accounts, parent));
    ColectivaNet(b.accounts, after.accounts, support, Final(loaded, req), parent);
    ResultsMove(b.accounts, Adjusted(loaded, req), req.closing, parent);
    AdjustedIsCounted(b, req, parent);
  }

  /** A debit in the result of the exercise, as a loss year leaves it, blocks any closing until it is covered. */
  lemma LossBlocksClosing(b: Books, req: Request)
    requires JournalOk(b) && ColectivaAt(b, req.closing, RESULT) > 0
    ensures BuildPlan(b, req).Err? && Execute(b, req).Err?
  {
    NaturalGuardIff(b, req);
    assert !NaturalSide(RESULT, CountedNet(b, req, RESULT));
    ExecuteFollowsPlan(b, req);
  }

  lemma DebitBlocksClosing(b: Books, req: Request)
    requires JournalOk(b) && Net(LinesIn(b.entries, Always()), InColectiva(b.accounts, RESULT)) > 0
    ensures Execute(b, req).Err?
  {
    if RequestVerdict(b, req).None? {
      RequestFacts(b, req);
      SameLines(b.entries, UpTo(req.closing), Always());
      LossBlocksClosing(b, req);
    }
  }

  lemma DebitBlocksSound(b: Books, req: Request)
    requires Inv(b) && Net(LinesIn(b.entries, Always()), InColectiva(b.accounts, RESULT)) > 0
    ensures Execute(b, req).Err?
  {
    DebitBlocksClosing(b, req);
  }

  lemma LossLeavesDebit(b: Books, req: Request, support: Index, plan: Plan, after: Books)
    requires Closes(b, req, support, plan, after) && ColectivaAt(b, req.closing, RESULT) > plan.sheet.netResult
    ensures Net(LinesIn(after.entries, Always()), InColectiva(after.accounts, RESULT)) > 0
  {
    ClosingMoves(b, req, support, plan, after, RESULT);
    ResultNotCounted(b, req);
  }

  lemma ResultNotCounted(b: Books, req: Request)
    ensures CountedNet(b, req, RESULT) == ColectivaAt(b, req.closing, RESULT)
  {
  }

  /** So a closing whose loss exceeds what the result of the exercise had in credit cannot be followed by another one
      straight away. */
  lemma LossBlocksNextClosing(b: Books, req: Request, support: Index, plan: Plan, after: Books, next: Request)
    requires Inv(b) && Closes(b, req, support, plan, after)
    requires ColectivaAt(b, req.closing, RESULT) > plan.sheet.netResult
    ensures Execute(after, next).Err?
  {
    ClosedKeeps(b, req, support, plan, after);
    LossLeavesDebit(b, req, support, plan, after);
    DebitBlocksSound(after, next);
  }

  // When the balance sheet of a plan balances.

  /** Nodes of real accounts only, as they are loaded. */
  predicate Loaded(nodes: seq<BalanceNode>) { forall n :: n in nodes ==> n.ref.id.Some? }

  lemma {:induction false} NodesForReal(ids: seq<AccountId>, accounts: seq<Account>, lines: seq<Line>)
    ensures Loaded(NodesFor(ids, accounts, lines))
  {
    if ids != [] {
      NodesForReal(ids[..|ids| - 1], accounts, lines);
    }
  }

  /** No virtual node stands under a colectiva. */
  predicate NoVirtual(nodes: seq<BalanceNode>, parent: Code) {
    forall n :: n in nodes && n.ref.id.None? ==> n.ref.parent != parent
  }

  function NewNode(l: DraftLine): BalanceNode {
    Charge(BalanceNode(VirtualRef(l.ref.parent, l.ref.name), 0, 0), l.side, l.amount)
  }

  lemma NewNodeAdded(nodes: seq<BalanceNode>, l: DraftLine)
    requires l.ref.id.None? && NoVirtual(nodes, l.ref.parent)
    ensures ApplyLine(nodes, l) == nodes + [NewNode(l)]
  {
    forall i | 0 <= i < |nodes| ensures KeyOf(nodes[i].ref) != KeyOf(l.ref) {
      assert nodes[i] in nodes;
    }
  }

  lemma TwoNewNodes(nodes: seq<BalanceNode>, l: DraftLine, m: DraftLine)
    requires l.ref.id.None? && m.ref.id.None? && l.ref.parent != m.ref.parent
    requires NoVirtual(nodes, l.ref.parent) && NoVirtual(nodes, m.ref.parent)
    ensures ApplyLines(nodes, [l, m]) == nodes + [NewNode(l)] + [NewNode(m)]
  {
    assert [l, m][..1] == [l] && [l][..0] == [];
    NewNodeAdded(nodes, l);
    assert ApplyLines(nodes, [l]) == ApplyLine(ApplyLines(nodes, []), l);
    NewNodeAdded(nodes + [NewNode(l)], m);
  }

  lemma BalanceOfOneMore(nodes: seq<BalanceNode>, n: BalanceNode, side: Side, p: Selection)
    ensures SumBalance(nodes + [n], side, p) == SumBalance(nodes, side, p) + if p(n.ref) then n.Balance(side) else 0
  {
    assert (nodes + [n])[..|nodes|] == nodes;
  }

  /** What a count falls short of the books. */
  function Shortage(actual: Option<int>, book: int): nat {
    match actual
    case Some(counted) => Positive(book - counted)
    case None => 0
  }

  /** The balances of a patrimonial rubro on its unnatural side. */
  function Unnatural(nodes: seq<BalanceNode>, root: nat): nat {
    SumBalance(nodes, if root == 1 then Credit else Debit, Rooted(root))
  }

  lemma AdjustmentLines(nodes: seq<BalanceNode>, date: Date, actual: Option<int>,
                        asset: AccountRef, surplus: AccountRef, shortage: AccountRef)
    ensures var lines := LinesOf(Adjustments(nodes, date, actual, asset, surplus, shortage));
            if actual.None? || actual.value == SumNet(nodes, Under(asset.parent)) then lines == []
            else
              var (a, b) := Pair(actual.value - SumNet(nodes, Under(asset.parent)), asset, surplus, shortage);
              lines == [a, b]
  {
    if actual.Some? && actual.value != SumNet(nodes, Under(asset.parent)) {
      var (a, b) := Pair(actual.value - SumNet(nodes, Under(asset.parent)), asset, surplus, shortage);
      AdjustmentIsPair(date, actual.value - SumNet(nodes, Under(asset.parent)), asset, surplus, shortage);
    }
  }

  /** What two more nodes put on the unnatural side of a rubro. */
  lemma TwoMoreUnnatural(nodes: seq<BalanceNode>, m: BalanceNode, n: BalanceNode, root: nat)
    ensures Unnatural(nodes + [m] + [n], root) == Unnatural(nodes, root) + Unnatural([m], root) + Unnatural([n], root)
  {
    var side := if root == 1 then Credit else Debit;
    BalanceOfOneMore(nodes, m, side, Rooted(root));
    BalanceOfOneMore(nodes + [m], n, side, Rooted(root));
    assert [] + [m] == [m] && [] + [n] == [n];
    BalanceOfOneMore([], m, side, Rooted(root));
    BalanceOfOneMore([], n, side, Rooted(root));
  }

  lemma NewUnnatural(l: DraftLine, root: nat)
    requires l.amount > 0
    ensures Unnatural([NewNode(l)], root)
         == if l.ref.parent.root == root && l.side == (if root == 1 then Credit else Debit) then l.amount else 0
  {
    assert [] + [NewNode(l)] == [NewNode(l)];
    BalanceOfOneMore([], NewNode(l), if root == 1 then Credit else Debit, Rooted(root));
  }

  /** The virtual nodes of `after` were there before, or stand under one of three colectivas. */
  ghost predicate VirtualFrom(after: seq<BalanceNode>, before: seq<BalanceNode>, a: Code, b: Code, c: Code) {
    forall n :: n in after && n.ref.id.None? ==> n in before || n.ref.parent == a || n.ref.parent == b || n.ref.parent == c
  }

  /** An adjustment of two new nodes. */
  lemma NewAdjustment(nodes: seq<BalanceNode>, a: DraftLine, b: DraftLine, root: nat)
    requires a.ref.id.None? && b.ref.id.None? && a.ref.parent != b.ref.parent && a.amount == b.amount > 0
    requires a.side == Debit && b.side == Credit && 1 <= root <= 3
    requires a.ref.parent.root == 1 || a.ref.parent.root == 4
    requires NoVirtual(nodes, a.ref.parent) && NoVirtual(nodes, b.ref.parent)
    ensures var after := ApplyLines(nodes, [a, b]);
            && Unnatural(after, root) == Unnatural(nodes, root)
                                         + (if root == b.ref.parent.root == 1 then b.amount else 0)
            && VirtualFrom(after, nodes, a.ref.parent, b.ref.parent, b.ref.parent)
  {
    TwoNewNodes(nodes, a, b);
    TwoMoreUnnatural(nodes, NewNode(a), NewNode(b), root);
    NewUnnatural(a, root);
    NewUnnatural(b, root);
  }

  /** An adjustment books a shortage as a credit balance of its own beside the accounts of the colectiva. */
  lemma AdjustmentUnnatural(nodes: seq<BalanceNode>, date: Date, actual: Option<int>,
                            asset: AccountRef, surplus: AccountRef, shortage: AccountRef, root: nat)
    requires AdjustmentRefs(asset, surplus, shortage) && 1 <= root <= 3
    requires asset.parent.root == 1 && surplus.parent.root == 5 && shortage.parent.root == 4
    requires NoVirtual(nodes, asset.parent) && NoVirtual(nodes, surplus.parent) && NoVirtual(nodes, shortage.parent)
    ensures var after := ApplyLines(nodes, LinesOf(Adjustments(nodes, date, actual, asset, surplus, shortage)));
            && Unnatural(after, root)
               == Unnatural(nodes, root) + (if root == 1 then Shortage(actual, SumNet(nodes, Under(asset.parent))) else 0)
            && VirtualFrom(after, nodes, asset.parent, surplus.parent, shortage.parent)
  {
    AdjustmentLines(nodes, date, actual, asset, surplus, shortage);
    if actual.Some? && actual.value != SumNet(nodes, Under(asset.parent)) {
      var (a, b) := Pair(actual.value - SumNet(nodes, Under(asset.parent)), asset, surplus, shortage);
      NewAdjustment(nodes, a, b, root);
    }
  }

  lemma AdjustedUnnatural(accounts: seq<Account>, loaded: seq<BalanceNode>, req: Request, root: nat)
    requires Balanced(accounts, loaded) && Loaded(loaded) && 1 <= root <= 3
    ensures Unnatural(Adjusted(loaded, req), root)
         == Unnatural(loaded, root)
            + if root == 1 then Shortage(req.cash, SumNet(loaded, Under(CASH)))
                                + Shortage(req.inventory, SumNet(loaded, Under(INVENTORY))) else 0
  {
    AdjustmentRefsOk();
    var cash := CashDrafts(loaded, req);
    var counted := ApplyLines(loaded, LinesOf(cash));
    AdjustmentStage(accounts, loaded, req.closing, req.cash, CASH_REF, CASH_SURPLUS, CASH_SHORTAGE, INVENTORY);
    AdjustmentUnnatural(loaded, req.closing, req.cash, CASH_REF, CASH_SURPLUS, CASH_SHORTAGE, root);
    var inventory := InventoryDrafts(counted, req);
    AdjustmentUnnatural(counted, req.closing, req.inventory, INVENTORY_REF, INVENTORY_SURPLUS, INVENTORY_SHORTAGE, root);
    LinesOfConcat(cash, inventory);
    ApplyConcat(loaded, LinesOf(cash), LinesOf(inventory));
  }

  /** What the balances on unnatural sides amount to in the journal, with what the counts fall short of the books. */
  function Excess(b: Books, req: Request): int {
    var loaded := LoadNodes(b, req.closing);
    Unnatural(loaded, 1) + Shortage(req.cash, ColectivaAt(b, req.closing, CASH))
    + Shortage(req.inventory, ColectivaAt(b, req.closing, INVENTORY)) - Unnatural(loaded, 2) - Unnatural(loaded, 3)
  }

  /** The two sides of the balance sheet of a plan differ by the credit balances of asset accounts before the closing,
      with what the counts fall short of the books, less the debit balances of liability and equity accounts.
      So the sheet balances exactly when these make each other up. */
  lemma SheetBalancesIff(b: Books, req: Request)
    requires JournalOk(b) && BuildPlan(b, req).Ok?
    ensures var sheet := BuildPlan(b, req).value.sheet;
            && sheet.assets - (sheet.liabilities + sheet.TotalEquity()) == Excess(b, req)
            && (sheet.IsBalanced() <==> Excess(b, req) == 0)
  {
    var loaded := LoadNodes(b, req.closing);
    LoadedBalanced(b, req.closing);
    NodesForReal(ByCode(b.accounts), b.accounts, LinesIn(b.entries, UpTo(req.closing)));
    AdjustedBalance(b.accounts, loaded, req);
    SheetEquation(b.accounts, Adjusted(loaded, req));
    AdjustedUnnatural(b.accounts, loaded, req, 1);
    AdjustedUnnatural(b.accounts, loaded, req, 2);
    AdjustedUnnatural(b.accounts, loaded, req, 3);
    LoadedColectiva(b, req.closing, CASH);
    LoadedColectiva(b, req.closing, INVENTORY);
  }

  // The net result in terms of the journal.

  /** What a count adds to the books of its colectiva. */
  function Difference(actual: Option<int>, book: int): int {
    match actual
    case Some(counted) => counted - book
    case None => 0
  }

  function Results(): Selection { (r: AccountRef) => r.parent.root == 4 || r.parent.root == 5 }

  lemma AdjustmentResult(nodes: seq<BalanceNode>, date: Date, actual: Option<int>,
                         asset: AccountRef, surplus: AccountRef, shortage: AccountRef)
    requires asset.parent.root == 1 && surplus.parent.root == 5 && shortage.parent.root == 4
    ensures DraftNet(LinesOf(Adjustments(nodes, date, actual, asset, surplus, shortage)), Results())
         == -Difference(actual, SumNet(nodes, Under(asset.parent)))
  {
    AdjustmentLines(nodes, date, actual, asset, surplus, shortage);
    if actual.Some? && actual.value != SumNet(nodes, Under(asset.parent)) {
      var (a, b) := Pair(actual.value - SumNet(nodes, Under(asset.parent)), asset, surplus, shortage);
      TwoLines(a, b, Results());
    }
  }

  lemma AdjustedResult(accounts: seq<Account>, loaded: seq<BalanceNode>, req: Request)
    requires Balanced(accounts, loaded)
    ensures SumNet(Adjusted(loaded, req), Results())
         == SumNet(loaded, Results()) - Difference(req.cash, SumNet(loaded, Under(CASH)))
            - Difference(req.inventory, SumNet(loaded, Under(INVENTORY)))
  {
    AdjustmentRefsOk();
    var cash := CashDrafts(loaded, req);
    var counted := ApplyLines(loaded, LinesOf(cash));
    var inventory := InventoryDrafts(counted, req);
    AdjustmentStage(accounts, loaded, req.closing, req.cash, CASH_REF, CASH_SURPLUS, CASH_SHORTAGE, INVENTORY);
    AdjustmentResult(loaded, req.closing, req.cash, CASH_REF, CASH_SURPLUS, CASH_SHORTAGE);
    AdjustmentResult(counted, req.closing, req.inventory, INVENTORY_REF, INVENTORY_SURPLUS, INVENTORY_SHORTAGE);
    LinesOfConcat(cash, inventory);
    DraftNetConcat(LinesOf(cash), LinesOf(inventory), Results());
    AdjustedBalance(accounts, loaded, req);
    VirtualCanonical(accounts, loaded, LinesOf(cash + inventory));
    AppliedNet(accounts, loaded, LinesOf(cash + inventory), Results());
  }

  /** A loss account is not in credit, a gain account not in debit. */
  predicate ResultSide(parent: Code, net: int) {
    (parent.root == 4 ==> net >= 0) && (parent.root == 5 ==> net <= 0)
  }

  /** The result nodes of a rubro are on their natural side. */
  predicate RubroSides(nodes: seq<BalanceNode>, root: nat) {
    forall n :: n in nodes && n.ref.parent.root == root ==> ResultSide(n.ref.parent, n.debit - n.credit)
  }

  predicate ResultSides(nodes: seq<BalanceNode>) { RubroSides(nodes, 4) && RubroSides(nodes, 5) }

  lemma ResultsVerdictIff(nodes: seq<BalanceNode>)
    ensures ResultsVerdict(nodes) == if !RubroSides(nodes, 4) then Some(NegativeResultSide)
                                     else if !RubroSides(nodes, 5) then Some(PositiveResultSide) else None
  {
  }

  lemma {:induction false} ResultBalances(nodes: seq<BalanceNode>)
    requires ResultSides(nodes)
    ensures SumBalance(nodes, Credit, Rooted(5)) - SumBalance(nodes, Debit, Rooted(4)) == -SumNet(nodes, Results())
  {
    if nodes != [] {
      var k := |nodes| - 1;
      assert nodes == nodes[..k] + [nodes[k]];
      ResultBalances(nodes[..k]);
    }
  }

  /** On their natural sides the result nodes hold the net result, with its sign turned. */
  lemma ResultsHold(nodes: seq<BalanceNode>)
    requires ResultsVerdict(nodes).None?
    ensures SheetOf(nodes).netResult == -SumNet(nodes, Results())
  {
    ResultsVerdictIff(nodes);
    ResultBalances(nodes);
  }

  /** Accounts of the result rubros. */
  function InResults(accounts: seq<Account>): AccountId -> bool {
    (id: AccountId) => id < |accounts| && (accounts[id].parent.root == 4 || accounts[id].parent.root == 5)
  }

  lemma LoadedResults(b: Books, until: Date)
    requires JournalOk(b)
    ensures SumNet(LoadNodes(b, until), Results()) == Net(LinesIn(b.entries, UpTo(until)), InResults(b.accounts))
  {
    hide SumNet, LoadNodes, Net, LinesIn, JournalOk;
    LoadedNet(b, until, Results(), InResults(b.accounts));
  }

  lemma PlanSheet(b: Books, req: Request)
    requires BuildPlan(b, req).Ok?
    ensures var adjusted := Adjusted(LoadNodes(b, req.closing), req);
            ResultsVerdict(adjusted).None? && BuildPlan(b, req).value.sheet == SheetOf(adjusted)
  {
    hide RequestVerdict, LoadNodes, Adjusted, Final, NaturalVerdict, ResultsVerdict, SheetOf, SnapshotLines, PatrimonialLines,
      ResultDrafts, AdjustmentDrafts, Mirror;
  }

  /** The net result of a plan is what the result accounts have in the journal, and what the counts add or take away. */
  lemma NetResultIs(b: Books, req: Request)
    requires JournalOk(b) && BuildPlan(b, req).Ok?
    ensures BuildPlan(b, req).value.sheet.netResult
         == -Net(LinesIn(b.entries, UpTo(req.closing)), InResults(b.accounts))
            + Difference(req.cash, ColectivaAt(b, req.closing, CASH))
            + Difference(req.inventory, ColectivaAt(b, req.closing, INVENTORY))
  {
    hide *;
    var loaded := LoadNodes(b, req.closing);
    PlanSheet(b, req);
    LoadedBalanced(b, req.closing);
    AdjustedResult(b.accounts, loaded, req);
    ResultsHold(Adjusted(loaded, req));
    LoadedResults(b, req.closing);
    LoadedColectiva(b, req.closing, CASH);
    LoadedColectiva(b, req.closing, INVENTORY);
  }
}
