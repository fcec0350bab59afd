/** What every plan satisfies, shown on its nodes. */
module PlanProperties {
  import opened Basics
  import opened Sorting
  import opened Model
  import opened AccountResolution
  import opened ClosingSupport
  import opened Balances
  import opened ClosingPlan

  /** Nodes over this company's accounts that balance as a whole, as those loaded from a sound journal do. */
  ghost predicate Balanced(accounts: seq<Account>, nodes: seq<BalanceNode>) {
    TableOk(accounts) && CanonicalNodes(accounts, nodes) && SumNet(nodes, AnyRef()) == 0
  }

  /** A draft that posting would accept once its accounts are resolved. */
  ghost predicate DraftOk(lines: seq<DraftLine>) {
    && (forall l :: l in lines ==> l.amount > 0)
    && (exists l :: l in lines && l.side == Debit)
    && (exists l :: l in lines && l.side == Credit)
    && DraftNet(lines, AnyRef()) == 0
  }

  lemma {:induction false} SameBalance(nodes: seq<BalanceNode>, side: Side, p: Selection, q: Selection)
    requires forall n :: n in nodes ==> p(n.ref) == q(n.ref)
    ensures SumBalance(nodes, side, p) == SumBalance(nodes, side, q)
    ensures Sum(nodes, side, p) == Sum(nodes, side, q)
  {
    if nodes != [] {
      var k := |nodes| - 1;
      assert nodes == nodes[..k] + [nodes[k]];
      SameBalance(nodes[..k], side, p, q);
    }
  }

  lemma CanonicalInRubro(accounts: seq<Account>, r: AccountRef)
    requires TableOk(accounts) && Canonical(accounts, r)
    ensures InRubro(r.parent)
  {
    SupportInRubro();
  }

  /** A sum splits into the patrimonial accounts and the two kinds of result account. */
  lemma {:induction false} SplitByRubro(nodes: seq<BalanceNode>, side: Side, q: Selection)
    requires forall n :: n in nodes ==> InRubro(n.ref.parent)
    ensures Sum(nodes, side, q) == Sum(nodes, side, Both(Patrimonial(), q)) + Sum(nodes, side, Both(Rooted(4), q))
                                   + Sum(nodes, side, Both(Rooted(5), q))
  {
    if nodes != [] {
      var k := |nodes| - 1;
      assert nodes == nodes[..k] + [nodes[k]];
      SplitByRubro(nodes[..k], side, q);
    }
  }

  lemma AddLine(lines: seq<DraftLine>, l: DraftLine, side: Side, p: Selection)
    ensures DraftSum(lines + [l], side, p)
         == DraftSum(lines, side, p) + if l.side == side && p(l.ref) then l.amount else 0
  {
    assert (lines + [l])[..|lines|] == lines;
  }

  /** Cancelling lines carry, opposite to the side they cancel, the balances of the selected nodes. */
  lemma {:induction false} CancellingSums(nodes: seq<BalanceNode>, side: Side, p: Selection, q: Selection)
    ensures DraftSum(Cancelling(nodes, side, p), Opposite(side), q) == SumBalance(nodes, side, Both(p, q))
    ensures DraftSum(Cancelling(nodes, side, p), side, q) == 0
  {
    if nodes != [] {
      var k := |nodes| - 1;
      CancellingSums(nodes[..k], side, p, q);
      var rest := Cancelling(nodes[..k], side, p);
      if p(nodes[k].ref) && nodes[k].Balance(side) > 0 {
        var line := DraftLine(nodes[k].ref, Opposite(side), nodes[k].Balance(side));
        assert Cancelling(nodes, side, p) == rest + [line];
        AddLine(rest, line, side, q);
        AddLine(rest, line, Opposite(side), q);
      } else {
        assert Cancelling(nodes, side, p) == rest;
      }
    }
  }

  lemma {:induction false} CancellingLines(nodes: seq<BalanceNode>, side: Side, p: Selection)
    ensures forall l :: l in Cancelling(nodes, side, p) ==>
              l.amount > 0 && l.side == Opposite(side) && p(l.ref) && exists n :: n in nodes && n.ref == l.ref
  {
    if nodes != [] {
      var k := |nodes| - 1;
      assert nodes == nodes[..k] + [nodes[k]];
      CancellingLines(nodes[..k], side, p);
    }
  }

  // Adjustments.

  /** The accounts of an adjustment are support accounts of three colectivas. */
  ghost predicate AdjustmentRefs(asset: AccountRef, surplus: AccountRef, shortage: AccountRef) {
    && asset.id.None? && surplus.id.None? && shortage.id.None?
    && Canonical([], asset) && Canonical([], surplus) && Canonical([], shortage)
    && asset.parent != surplus.parent && asset.parent != shortage.parent
  }

  lemma AdjustmentRefsOk()
    ensures AdjustmentRefs(CASH_REF, CASH_SURPLUS, CASH_SHORTAGE)
    ensures AdjustmentRefs(INVENTORY_REF, INVENTORY_SURPLUS, INVENTORY_SHORTAGE)
    ensures Canonical([], RESULT_REF)
  {
    assert SUPPORT[0] in SUPPORT && SUPPORT[1] in SUPPORT && SUPPORT[2] in SUPPORT && SUPPORT[4] in SUPPORT
        && SUPPORT[5] in SUPPORT && SUPPORT[6] in SUPPORT && SUPPORT[7] in SUPPORT;
  }

  /** Lines over support accounts only, so canonical beside any nodes. */
  ghost predicate Virtual(lines: seq<DraftLine>) {
    forall l :: l in lines ==> l.ref.id.None? && Canonical([], l.ref)
  }

  lemma VirtualCanonical(accounts: seq<Account>, nodes: seq<BalanceNode>, lines: seq<DraftLine>)
    requires Virtual(lines)
    ensures CanonicalLines(accounts, nodes, lines)
  {
  }

  lemma TwoLines(a: DraftLine, b: DraftLine, p: Selection)
    requires a.side == Debit && b.side == Credit
    ensures DraftNet([a, b], p) == (if p(a.ref) then a.amount else 0) - (if p(b.ref) then b.amount else 0)
  {
    forall side ensures DraftSum([a, b], side, p) == (if a.side == side && p(a.ref) then a.amount else 0)
                                                     + (if b.side == side && p(b.ref) then b.amount else 0)
    {
      assert [] + [a] == [a] && [a] + [b] == [a, b];
      AddLine([], a, side, p);
      AddLine([a], b, side, p);
    }
  }

  lemma TwoLinesOk(a: DraftLine, b: DraftLine)
    requires a.side == Debit && b.side == Credit && a.amount == b.amount > 0
    requires a.ref.id.None? && Canonical([], a.ref) && b.ref.id.None? && Canonical([], b.ref)
    ensures DraftOk([a, b]) && Virtual([a, b])
  {
    TwoLines(a, b, AnyRef());
    assert a in [a, b] && b in [a, b];
  }

  lemma LinesOfOne(d: Draft)
    ensures LinesOf([d]) == d.lines
  {
    assert [d][..0] == [];
  }

  /** What an adjustment debits and credits. */
  function Pair(difference: int, asset: AccountRef, surplus: AccountRef, shortage: AccountRef): (DraftLine, DraftLine) {
    if difference > 0 then (DraftLine(asset, Debit, difference), DraftLine(surplus, Credit, difference))
    else (DraftLine(shortage, Debit, -difference), DraftLine(asset, Credit, -difference))
  }

  lemma AdjustmentIsPair(date: Date, difference: int, asset: AccountRef, surplus: AccountRef, shortage: AccountRef)
    ensures var (a, b) := Pair(difference, asset, surplus, shortage);
            var drafts := AdjustmentOf(date, difference, asset, surplus, shortage);
            && drafts == (if difference == 0 then [] else [Draft(date, Adjustment, [a, b])])
            && LinesOf(drafts) == if difference == 0 then [] else [a, b]
  {
    var (a, b) := Pair(difference, asset, surplus, shortage);
    LinesOfOne(Draft(date, Adjustment, [a, b]));
  }

  /** An adjustment is at most one draft, and that one is postable. */
  lemma AdjustmentDraftOk(date: Date, difference: int, asset: AccountRef, surplus: AccountRef, shortage: AccountRef)
    requires AdjustmentRefs(asset, surplus, shortage)
    ensures var drafts := AdjustmentOf(date, difference, asset, surplus, shortage);
            && Virtual(LinesOf(drafts))
            && (forall d :: d in drafts ==> d.date == date && d.source == Adjustment && DraftOk(d.lines) && Virtual(d.lines))
  {
    if difference != 0 {
      var (a, b) := Pair(difference, asset, surplus, shortage);
      TwoLinesOk(a, b);
    }
    AdjustmentIsPair(date, difference, asset, surplus, shortage);
  }

  /** What an adjustment moves: its colectiva by the difference, nothing as a whole, and no third colectiva. */
  lemma AdjustmentMoves(date: Date, difference: int, asset: AccountRef, surplus: AccountRef, shortage: AccountRef,
                        other: Code)
    requires asset.parent != surplus.parent && asset.parent != shortage.parent
    requires other != asset.parent && other != surplus.parent && other != shortage.parent
    ensures var lines := LinesOf(AdjustmentOf(date, difference, asset, surplus, shortage));
            && DraftNet(lines, AnyRef()) == 0 && DraftNet(lines, Under(other)) == 0
            && DraftNet(lines, Under(asset.parent)) == difference
  {
    if difference != 0 {
      var (a, b) := Pair(difference, asset, surplus, shortage);
      AdjustmentIsPair(date, difference, asset, surplus, shortage);
      TwoLines(a, b, AnyRef());
      TwoLines(a, b, Under(other));
      TwoLines(a, b, Under(asset.parent));
    }
  }

  /** Drafts fit for posting as adjustments on a date. */
  ghost predicate AdjustmentsOk(drafts: seq<Draft>, date: Date) {
    forall d :: d in drafts ==> d.date == date && d.source == Adjustment && DraftOk(d.lines) && Virtual(d.lines)
  }

  /** One adjustment applied: the books stay balanced, the colectiva reaches its count, no third one moves. */
  lemma AdjustmentStage(accounts: seq<Account>, nodes: seq<BalanceNode>, date: Date, actual: Option<int>,
                        asset: AccountRef, surplus: AccountRef, shortage: AccountRef, other: Code)
    requires Balanced(accounts, nodes) && AdjustmentRefs(asset, surplus, shortage)
    requires other != asset.parent && other != surplus.parent && other != shortage.parent
    ensures var drafts := Adjustments(nodes, date, actual, asset, surplus, shortage);
            var after := ApplyLines(nodes, LinesOf(drafts));
            && AdjustmentsOk(drafts, date) && Virtual(LinesOf(drafts)) && Balanced(accounts, after)
            && SumNet(after, Under(other)) == SumNet(nodes, Under(other))
            && (actual.Some? ==> SumNet(after, Under(asset.parent)) == actual.value)
  {
    hide Canonical;
    var drafts := Adjustments(nodes, date, actual, asset, surplus, shortage);
    var lines := LinesOf(drafts);
    if actual.Some? {
      var difference := actual.value - SumNet(nodes, Under(asset.parent));
      assert drafts == AdjustmentOf(date, difference, asset, surplus, shortage);
      AdjustmentDraftOk(date, difference, asset, surplus, shortage);
      AdjustmentMoves(date, difference, asset, surplus, shortage, other);
      assert DraftNet(lines, Under(asset.parent)) == actual.value - SumNet(nodes, Under(asset.parent));
    } else {
      assert drafts == [] && lines == [];
    }
    assert DraftNet(lines, AnyRef()) == 0 && DraftNet(lines, Under(other)) == 0;
    VirtualCanonical(accounts, nodes, lines);
    AppliedCanonical(accounts, nodes, lines);
    AppliedNet(accounts, nodes, lines, AnyRef());
    AppliedNet(accounts, nodes, lines, Under(other));
    AppliedNet(accounts, nodes, lines, Under(asset.parent));
  }

  /** Both adjustments: fit drafts, balanced books, and the counted amounts where counts were given. */
  lemma AdjustedBalance(accounts: seq<Account>, loaded: seq<BalanceNode>, req: Request)
    requires Balanced(accounts, loaded)
    ensures var drafts := AdjustmentDrafts(loaded, req);
            var adjusted := ApplyLines(loaded, LinesOf(drafts));
            && AdjustmentsOk(drafts, req.closing) && Virtual(LinesOf(drafts)) && Balanced(accounts, adjusted)
            && (req.cash.Some? ==> SumNet(adjusted, Under(CASH)) == req.cash.value)
            && (req.inventory.Some? ==> SumNet(adjusted, Under(INVENTORY)) == req.inventory.value)
  {
    AdjustmentRefsOk();
    var cash := CashDrafts(loaded, req);
    AdjustmentStage(accounts, loaded, req.closing, req.cash, CASH_REF, CASH_SURPLUS, CASH_SHORTAGE, INVENTORY);
    var counted := ApplyLines(loaded, LinesOf(cash));
    var inventory := InventoryDrafts(counted, req);
    AdjustmentStage(accounts, counted, req.closing, req.inventory, INVENTORY_REF, INVENTORY_SURPLUS, INVENTORY_SHORTAGE, CASH);
    LinesOfConcat(cash, inventory);
    ApplyConcat(loaded, LinesOf(cash), LinesOf(inventory));
  }

  lemma AdjustedCanonical(accounts: seq<Account>, loaded: seq<BalanceNode>, req: Request)
    requires CanonicalNodes(accounts, loaded)
    ensures CanonicalNodes(accounts, ApplyLines(loaded, LinesOf(AdjustmentDrafts(loaded, req))))
  {
    AdjustmentRefsOk();
    var cash := CashDrafts(loaded, req);
    var inventory := InventoryDrafts(ApplyLines(loaded, LinesOf(cash)), req);
    AdjustmentsVirtual(loaded, req.closing, req.cash, CASH_REF, CASH_SURPLUS, CASH_SHORTAGE);
    AdjustmentsVirtual(ApplyLines(loaded, LinesOf(cash)), req.closing, req.inventory,
                       INVENTORY_REF, INVENTORY_SURPLUS, INVENTORY_SHORTAGE);
    LinesOfConcat(cash, inventory);
    VirtualCanonical(accounts, loaded, LinesOf(cash) + LinesOf(inventory));
    AppliedCanonical(accounts, loaded, LinesOf(cash) + LinesOf(inventory));
  }

  lemma AdjustmentsVirtual(nodes: seq<BalanceNode>, date: Date, actual: Option<int>,
                           asset: AccountRef, surplus: AccountRef, shortage: AccountRef)
    requires AdjustmentRefs(asset, surplus, shortage)
    ensures Virtual(LinesOf(Adjustments(nodes, date, actual, asset, surplus, shortage)))
  {
    hide Canonical;
    if actual.Some? {
      var difference := actual.value - SumNet(nodes, Under(asset.parent));
      AdjustmentIsPair(date, difference, asset, surplus, shortage);
      PairVirtual(difference, asset, surplus, shortage);
    }
  }

  lemma PairVirtual(difference: int, asset: AccountRef, surplus: AccountRef, shortage: AccountRef)
    requires AdjustmentRefs(asset, surplus, shortage)
    ensures Virtual([]) && Virtual([Pair(difference, asset, surplus, shortage).0, Pair(difference, asset, surplus, shortage).1])
  {
    hide Canonical;
  }

  lemma {:induction false} LinesOfConcat(a: seq<Draft>, b: seq<Draft>)
    ensures LinesOf(a + b) == LinesOf(a) + LinesOf(b)
  {
    if b == [] {
      assert a + b == a;
    } else {
      var n := |b| - 1;
      assert (a + b)[..|a| + n] == a + b[..n];
      LinesOfConcat(a, b[..n]);
    }
  }

  lemma {:induction false} ApplyConcat(nodes: seq<BalanceNode>, a: seq<DraftLine>, b: seq<DraftLine>)
    ensures ApplyLines(nodes, a + b) == ApplyLines(ApplyLines(nodes, a), b)
  {
    if b == [] {
      assert a + b == a;
    } else {
      var n := |b| - 1;
      assert (a + b)[..|a| + n] == a + b[..n];
      ApplyConcat(nodes, a, b[..n]);
    }
  }

  // Result closing.

  lemma DraftNetConcat(a: seq<DraftLine>, b: seq<DraftLine>, p: Selection)
    ensures DraftNet(a + b, p) == DraftNet(a, p) + DraftNet(b, p)
  {
    DraftSumConcat(a, b, Debit, p);
    DraftSumConcat(a, b, Credit, p);
  }

  lemma OneLine(l: DraftLine, p: Selection)
    ensures DraftNet([l], p) == if !p(l.ref) then 0 else if l.side == Debit then l.amount else -l.amount
  {
    assert [] + [l] == [l];
    AddLine([], l, Debit, p);
    AddLine([], l, Credit, p);
  }

  /** The total of the cancelled balances, whatever the selection. */
  lemma CancellingTotal(nodes: seq<BalanceNode>, side: Side, p: Selection, q: Selection)
    ensures SumBalance(nodes, side, Both(p, AnyRef())) == SumBalance(nodes, side, p)
    ensures Cancelling(nodes, side, p) == [] ==>
              SumBalance(nodes, side, p) == 0 && SumBalance(nodes, side, Both(p, q)) == 0
    ensures DraftNet(Cancelling(nodes, side, p), q)
         == (if side == Debit then -1 else 1) * SumBalance(nodes, side, Both(p, q))
  {
    CancellingSums(nodes, side, p, q);
    CancellingSums(nodes, side, p, AnyRef());
    SameBalance(nodes, side, Both(p, AnyRef()), p);
  }

  /** The loss entry moves the balances of the selected loss accounts into the result of the exercise. */
  lemma LossMoves(nodes: seq<BalanceNode>, date: Date, q: Selection)
    ensures DraftNet(LinesOf(LossDrafts(nodes, date)), q)
         == (if q(RESULT_REF) then SumBalance(nodes, Debit, Rooted(4)) else 0) - SumBalance(nodes, Debit, Both(Rooted(4), q))
  {
    CancellingTotal(nodes, Debit, Rooted(4), q);
    if Cancelling(nodes, Debit, Rooted(4)) != [] {
      LinesOfOne(Draft(date, ResultClosing, LossLines(nodes)));
      var first := DraftLine(RESULT_REF, Debit, SumBalance(nodes, Debit, Rooted(4)));
      DraftNetConcat([first], Cancelling(nodes, Debit, Rooted(4)), q);
      OneLine(first, q);
    }
  }

  lemma GainMoves(nodes: seq<BalanceNode>, date: Date, q: Selection)
    ensures DraftNet(LinesOf(GainDrafts(nodes, date)), q)
         == SumBalance(nodes, Credit, Both(Rooted(5), q)) - (if q(RESULT_REF) then SumBalance(nodes, Credit, Rooted(5)) else 0)
  {
    CancellingTotal(nodes, Credit, Rooted(5), q);
    if Cancelling(nodes, Credit, Rooted(5)) != [] {
      LinesOfOne(Draft(date, ResultClosing, GainLines(nodes)));
      var last := DraftLine(RESULT_REF, Credit, SumBalance(nodes, Credit, Rooted(5)));
      DraftNetConcat(Cancelling(nodes, Credit, Rooted(5)), [last], q);
      OneLine(last, q);
    }
  }

  lemma ResultMoves(nodes: seq<BalanceNode>, date: Date, q: Selection)
    ensures DraftNet(LinesOf(ResultDrafts(nodes, date)), q)
         == (if q(RESULT_REF) then SumBalance(nodes, Debit, Rooted(4)) - SumBalance(nodes, Credit, Rooted(5)) else 0)
            - SumBalance(nodes, Debit, Both(Rooted(4), q)) + SumBalance(nodes, Credit, Both(Rooted(5), q))
  {
    LossMoves(nodes, date, q);
    GainMoves(nodes, date, q);
    LinesOfConcat(LossDrafts(nodes, date), GainDrafts(nodes, date));
    DraftNetConcat(LinesOf(LossDrafts(nodes, date)), LinesOf(GainDrafts(nodes, date)), q);
  }

  /** Drafts fit for posting as a result closing on a date. */
  ghost predicate ResultsOk(accounts: seq<Account>, nodes: seq<BalanceNode>, drafts: seq<Draft>, date: Date) {
    forall d :: d in drafts ==>
      d.date == date && d.source == ResultClosing && DraftOk(d.lines) && CanonicalLines(accounts, nodes, d.lines)
  }

  lemma CancellingCanonical(accounts: seq<Account>, nodes: seq<BalanceNode>, side: Side, p: Selection)
    requires CanonicalNodes(accounts, nodes)
    ensures CanonicalLines(accounts, nodes, Cancelling(nodes, side, p))
  {
    CancellingLines(nodes, side, p);
  }

  /** A line for the total of some cancelled balances, on the side they were on, makes a postable draft with them. */
  lemma TotalAndCancelling(nodes: seq<BalanceNode>, side: Side, p: Selection, total: DraftLine, lines: seq<DraftLine>)
    requires Cancelling(nodes, side, p) != []
    requires total.side == side && total.amount == SumBalance(nodes, side, p)
    requires lines == [total] + Cancelling(nodes, side, p) || lines == Cancelling(nodes, side, p) + [total]
    ensures DraftOk(lines)
  {
    var rest := Cancelling(nodes, side, p);
    CancellingLines(nodes, side, p);
    CancellingTotal(nodes, side, p, AnyRef());
    CancellingPositive(nodes, side, p);
    OneLine(total, AnyRef());
    DraftNetConcat([total], rest, AnyRef());
    DraftNetConcat(rest, [total], AnyRef());
    assert rest[0] in lines && total in lines;
    assert rest[0] in rest;
  }

  lemma {:induction false} CancellingPositive(nodes: seq<BalanceNode>, side: Side, p: Selection)
    requires Cancelling(nodes, side, p) != []
    ensures SumBalance(nodes, side, p) > 0
  {
    var k := |nodes| - 1;
    if !(p(nodes[k].ref) && nodes[k].Balance(side) > 0) {
      CancellingPositive(nodes[..k], side, p);
    }
  }

  lemma CanonicalConcat(accounts: seq<Account>, nodes: seq<BalanceNode>, a: seq<DraftLine>, b: seq<DraftLine>)
    requires CanonicalLines(accounts, nodes, a) && CanonicalLines(accounts, nodes, b)
    ensures CanonicalLines(accounts, nodes, a + b)
  {
  }

  lemma ResultLineCanonical(accounts: seq<Account>, nodes: seq<BalanceNode>, l: DraftLine)
    requires l.ref == RESULT_REF
    ensures CanonicalLines(accounts, nodes, [l])
  {
    AdjustmentRefsOk();
  }

  lemma LossDraftsOk(accounts: seq<Account>, nodes: seq<BalanceNode>, date: Date)
    requires CanonicalNodes(accounts, nodes)
    ensures ResultsOk(accounts, nodes, LossDrafts(nodes, date), date)
  {
    var losses := Cancelling(nodes, Debit, Rooted(4));
    if losses != [] {
      var total := DraftLine(RESULT_REF, Debit, SumBalance(nodes, Debit, Rooted(4)));
      TotalAndCancelling(nodes, Debit, Rooted(4), total, LossLines(nodes));
      ResultLineCanonical(accounts, nodes, total);
      CancellingCanonical(accounts, nodes, Debit, Rooted(4));
      CanonicalConcat(accounts, nodes, [total], losses);
    }
  }

  lemma GainDraftsOk(accounts: seq<Account>, nodes: seq<BalanceNode>, date: Date)
    requires CanonicalNodes(accounts, nodes)
    ensures ResultsOk(accounts, nodes, GainDrafts(nodes, date), date)
  {
    var gains := Cancelling(nodes, Credit, Rooted(5));
    if gains != [] {
      var total := DraftLine(RESULT_REF, Credit, SumBalance(nodes, Credit, Rooted(5)));
      TotalAndCancelling(nodes, Credit, Rooted(5), total, GainLines(nodes));
      ResultLineCanonical(accounts, nodes, total);
      CancellingCanonical(accounts, nodes, Credit, Rooted(5));
      CanonicalConcat(accounts, nodes, gains, [total]);
    }
  }

  lemma ResultDraftsOk(accounts: seq<Account>, nodes: seq<BalanceNode>, date: Date)
    requires CanonicalNodes(accounts, nodes)
    ensures ResultsOk(accounts, nodes, ResultDrafts(nodes, date), date)
  {
    LossDraftsOk(accounts, nodes, date);
    GainDraftsOk(accounts, nodes, date);
  }

  lemma {:induction false} LinesOfCanonical(accounts: seq<Account>, nodes: seq<BalanceNode>, drafts: seq<Draft>)
    requires forall d :: d in drafts ==> CanonicalLines(accounts, nodes, d.lines)
    ensures CanonicalLines(accounts, nodes, LinesOf(drafts))
  {
    if drafts != [] {
      var n := |drafts| - 1;
      assert drafts == drafts[..n] + [drafts[n]];
      LinesOfCanonical(accounts, nodes, drafts[..n]);
    }
  }

  lemma {:induction false} NoBalance(nodes: seq<BalanceNode>, side: Side, root: nat, q: Selection)
    requires forall n :: n in nodes && n.ref.parent.root == root ==> n.Balance(side) == 0
    ensures SumBalance(nodes, side, Both(Rooted(root), q)) == 0
  {
    if nodes != [] {
      var k := |nodes| - 1;
      assert nodes == nodes[..k] + [nodes[k]];
      NoBalance(nodes[..k], side, root, q);
    }
  }

  /** Closing the results leaves any selection of result accounts at zero, and any selection of patrimonial
      accounts as it was but for the result of the exercise. */
  lemma ResultsClosed(accounts: seq<Account>, adjusted: seq<BalanceNode>, date: Date, q: Selection)
    requires Balanced(accounts, adjusted) && ResultsVerdict(adjusted).None?
    ensures var final := ApplyLines(adjusted, LinesOf(ResultDrafts(adjusted, date)));
            && Balanced(accounts, final)
            && SumNet(final, Both(Rooted(4), q)) == 0 && SumNet(final, Both(Rooted(5), q)) == 0
  {
    var lines := LinesOf(ResultDrafts(adjusted, date));
    ResultDraftsOk(accounts, adjusted, date);
    LinesOfCanonical(accounts, adjusted, ResultDrafts(adjusted, date));
    AppliedCanonical(accounts, adjusted, lines);
    AppliedNet(accounts, adjusted, lines, AnyRef());
    ResultMoves(adjusted, date, AnyRef());
    SameBalance(adjusted, Debit, Both(Rooted(4), AnyRef()), Rooted(4));
    SameBalance(adjusted, Credit, Both(Rooted(5), AnyRef()), Rooted(5));
    RootClosed(accounts, adjusted, date, 4, q);
    RootClosed(accounts, adjusted, date, 5, q);
  }

  lemma RootClosed(accounts: seq<Account>, adjusted: seq<BalanceNode>, date: Date, root: nat, q: Selection)
    requires Balanced(accounts, adjusted) && ResultsVerdict(adjusted).None? && (root == 4 || root == 5)
    ensures SumNet(ApplyLines(adjusted, LinesOf(ResultDrafts(adjusted, date))), Both(Rooted(root), q)) == 0
  {
    var lines := LinesOf(ResultDrafts(adjusted, date));
    var p := Both(Rooted(root), q);
    ResultDraftsOk(accounts, adjusted, date);
    LinesOfCanonical(accounts, adjusted, ResultDrafts(adjusted, date));
    AppliedNet(accounts, adjusted, lines, p);
    ResultMoves(adjusted, date, p);
    NetIsBalances(adjusted, p);
    var side := if root == 4 then Credit else Debit;
    forall n | n in adjusted && n.ref.parent.root == root ensures n.Balance(side) == 0 {
      assert ResultsVerdict(adjusted).None?;
    }
    NoBalance(adjusted, side, root, q);
    NoBalanceElsewhere(adjusted, if root == 4 then Credit else Debit, if root == 4 then 5 else 4, root, q);
    SameBalance(adjusted, Opposite(side), Both(Rooted(root), p), p);
  }

  lemma {:induction false} NoBalanceElsewhere(nodes: seq<BalanceNode>, side: Side, root: nat, other: nat, q: Selection)
    requires root != other
    ensures SumBalance(nodes, side, Both(Rooted(root), Both(Rooted(other), q))) == 0
  {
    if nodes != [] {
      NoBalanceElsewhere(nodes[..|nodes| - 1], side, root, other, q);
    }
  }

  // Patrimonial closing and reopening.

  /** The patrimonial entry takes every patrimonial balance away. */
  lemma PatrimonialMoves(nodes: seq<BalanceNode>, q: Selection)
    ensures DraftNet(PatrimonialLines(nodes), q) == -SumNet(nodes, Both(Patrimonial(), q))
  {
    CancellingTotal(nodes, Credit, Patrimonial(), q);
    CancellingTotal(nodes, Debit, Patrimonial(), q);
    DraftNetConcat(Cancelling(nodes, Credit, Patrimonial()), Cancelling(nodes, Debit, Patrimonial()), q);
    NetIsBalances(nodes, Both(Patrimonial(), q));
  }

  lemma SplitNet(accounts: seq<Account>, nodes: seq<BalanceNode>, q: Selection)
    requires TableOk(accounts) && CanonicalNodes(accounts, nodes)
    ensures SumNet(nodes, q) == SumNet(nodes, Both(Patrimonial(), q)) + SumNet(nodes, Both(Rooted(4), q))
                                + SumNet(nodes, Both(Rooted(5), q))
  {
    forall n | n in nodes ensures InRubro(n.ref.parent) {
      CanonicalInRubro(accounts, n.ref);
    }
    SplitByRubro(nodes, Debit, q);
    SplitByRubro(nodes, Credit, q);
  }

  /** Balances as a result closing leaves them: balanced, with every result account at zero. */
  ghost predicate Settled(accounts: seq<Account>, nodes: seq<BalanceNode>) {
    Balanced(accounts, nodes)
    && forall q: Selection :: SumNet(nodes, Both(Rooted(4), q)) == 0 && SumNet(nodes, Both(Rooted(5), q)) == 0
  }

  lemma FinalSettled(accounts: seq<Account>, adjusted: seq<BalanceNode>, date: Date)
    requires Balanced(accounts, adjusted) && ResultsVerdict(adjusted).None?
    ensures Settled(accounts, ApplyLines(adjusted, LinesOf(ResultDrafts(adjusted, date))))
  {
    ResultsClosed(accounts, adjusted, date, AnyRef());
    forall q: Selection {
      ResultsClosed(accounts, adjusted, date, q);
    }
  }

  /** After the patrimonial closing nothing is left, for any selection of accounts. */
  lemma EverythingCloses(accounts: seq<Account>, final: seq<BalanceNode>, q: Selection)
    requires Settled(accounts, final)
    ensures SumNet(final, q) + DraftNet(PatrimonialLines(final), q) == 0
  {
    SplitNet(accounts, final, q);
    PatrimonialMoves(final, q);
  }

  /** The patrimonial entry balances because the journal does and the results are at zero. */
  lemma PatrimonialOk(accounts: seq<Account>, final: seq<BalanceNode>)
    requires Settled(accounts, final) && PatrimonialLines(final) != []
    ensures DraftOk(PatrimonialLines(final)) && CanonicalLines(accounts, final, PatrimonialLines(final))
  {
    var lines := PatrimonialLines(final);
    EverythingCloses(accounts, final, AnyRef());
    CancellingLines(final, Credit, Patrimonial());
    CancellingLines(final, Debit, Patrimonial());
    CancellingCanonical(accounts, final, Credit, Patrimonial());
    CancellingCanonical(accounts, final, Debit, Patrimonial());
    BothSides(lines);
  }

  /** Positive amounts that balance stand on both sides. */
  lemma BothSides(lines: seq<DraftLine>)
    requires lines != [] && (forall l :: l in lines ==> l.amount > 0) && DraftNet(lines, AnyRef()) == 0
    ensures (exists l :: l in lines && l.side == Debit) && (exists l :: l in lines && l.side == Credit)
  {
    SideTotal(lines, Debit);
    SideTotal(lines, Credit);
    assert lines[0] in lines;
    assert OnSide(lines, lines[0].side);
  }

  predicate OnSide(lines: seq<DraftLine>, side: Side) { exists l :: l in lines && l.side == side }

  lemma OnSideOfOneMore(lines: seq<DraftLine>, l: DraftLine, side: Side)
    ensures OnSide(lines + [l], side) <==> OnSide(lines, side) || l.side == side
  {
    if OnSide(lines, side) {
      var k :| k in lines && k.side == side;
      assert k in lines + [l];
    } else if l.side == side {
      assert l in lines + [l];
    }
  }

  lemma {:induction false} SideTotal(lines: seq<DraftLine>, side: Side)
    requires forall l :: l in lines ==> l.amount > 0
    ensures DraftSum(lines, side, AnyRef()) >= 0
    ensures DraftSum(lines, side, AnyRef()) > 0 <==> OnSide(lines, side)
  {
    if lines != [] {
      var n := |lines| - 1;
      assert lines == lines[..n] + [lines[n]];
      SideTotal(lines[..n], side);
      OnSideOfOneMore(lines[..n], lines[n], side);
    }
  }

  lemma {:induction false} MirrorMoves(lines: seq<DraftLine>, side: Side, p: Selection)
    ensures DraftSum(Mirror(lines), side, p) == DraftSum(lines, Opposite(side), p)
  {
    if lines != [] {
      var n := |lines| - 1;
      assert Mirror(lines)[..n] == Mirror(lines[..n]);
      MirrorMoves(lines[..n], side, p);
    }
  }

  lemma MirrorOk(accounts: seq<Account>, nodes: seq<BalanceNode>, lines: seq<DraftLine>)
    requires DraftOk(lines) && CanonicalLines(accounts, nodes, lines)
    ensures DraftOk(Mirror(lines)) && CanonicalLines(accounts, nodes, Mirror(lines))
  {
    var mirror := Mirror(lines);
    MirrorMoves(lines, Debit, AnyRef());
    MirrorMoves(lines, Credit, AnyRef());
    forall l | l in mirror ensures exists k :: k in lines && l == k.(side := Opposite(k.side)) {
      var i :| 0 <= i < |mirror| && mirror[i] == l;
      assert lines[i] in lines;
    }
    forall k | k in lines ensures k.(side := Opposite(k.side)) in mirror {
      var i :| 0 <= i < |lines| && lines[i] == k;
      assert mirror[i] in mirror;
    }
  }

  /** What the reopening books for any selection of accounts is what the patrimonial closing took away. */
  lemma ReopeningMoves(final: seq<BalanceNode>, q: Selection)
    ensures DraftNet(Mirror(PatrimonialLines(final)), q) == SumNet(final, Both(Patrimonial(), q))
  {
    PatrimonialMoves(final, q);
    MirrorMoves(PatrimonialLines(final), Debit, q);
    MirrorMoves(PatrimonialLines(final), Credit, q);
  }

  // Counted amounts.

  /** Closing the results moves no colectiva of assets. */
  lemma AssetsUntouched(accounts: seq<Account>, adjusted: seq<BalanceNode>, date: Date, parent: Code)
    requires CanonicalNodes(accounts, adjusted) && parent.root == 1
    ensures SumNet(ApplyLines(adjusted, LinesOf(ResultDrafts(adjusted, date))), Under(parent))
         == SumNet(adjusted, Under(parent))
  {
    var lines := LinesOf(ResultDrafts(adjusted, date));
    ResultDraftsOk(accounts, adjusted, date);
    LinesOfCanonical(accounts, adjusted, ResultDrafts(adjusted, date));
    AppliedNet(accounts, adjusted, lines, Under(parent));
    ResultMoves(adjusted, date, Under(parent));
    OtherRoot(adjusted, Debit, 4, parent);
    OtherRoot(adjusted, Credit, 5, parent);
  }

  lemma {:induction false} OtherRoot(nodes: seq<BalanceNode>, side: Side, root: nat, parent: Code)
    requires root != parent.root
    ensures SumBalance(nodes, side, Both(Rooted(root), Under(parent))) == 0
  {
    if nodes != [] {
      OtherRoot(nodes[..|nodes| - 1], side, root, parent);
    }
  }

  // The balance sheet.

  /** Assets fall short of or exceed liabilities plus equity by exactly the balances on the unnatural side. */
  lemma SheetEquation(accounts: seq<Account>, adjusted: seq<BalanceNode>)
    requires Balanced(accounts, adjusted) && ResultsVerdict(adjusted).None?
    ensures var sheet := SheetOf(adjusted);
            sheet.assets - (sheet.liabilities + sheet.TotalEquity())
            == SumBalance(adjusted, Credit, Rooted(1))
               - SumBalance(adjusted, Debit, Rooted(2)) - SumBalance(adjusted, Debit, Rooted(3))
    ensures SheetOf(adjusted).IsBalanced() <==>
              SumBalance(adjusted, Credit, Rooted(1))
              == SumBalance(adjusted, Debit, Rooted(2)) + SumBalance(adjusted, Debit, Rooted(3))
  {
    forall n | n in adjusted ensures InRubro(n.ref.parent) {
      CanonicalInRubro(accounts, n.ref);
    }
    SumByRoots(adjusted);
    NetIsBalances(adjusted, Rooted(1));
    NetIsBalances(adjusted, Rooted(2));
    NetIsBalances(adjusted, Rooted(3));
    NetIsBalances(adjusted, Rooted(4));
    NetIsBalances(adjusted, Rooted(5));
    forall root, side | (root == 4 && side == Credit) || (root == 5 && side == Debit)
      ensures SumBalance(adjusted, side, Rooted(root)) == 0
    {
      assert ResultsVerdict(adjusted).None?;
      NoBalance(adjusted, side, root, AnyRef());
      SameBalance(adjusted, side, Both(Rooted(root), AnyRef()), Rooted(root));
    }
  }

  lemma {:induction false} SumByRoots(nodes: seq<BalanceNode>)
    requires forall n :: n in nodes ==> InRubro(n.ref.parent)
    ensures SumNet(nodes, AnyRef()) == SumNet(nodes, Rooted(1)) + SumNet(nodes, Rooted(2)) + SumNet(nodes, Rooted(3))
                                       + SumNet(nodes, Rooted(4)) + SumNet(nodes, Rooted(5))
  {
    if nodes != [] {
      var k := |nodes| - 1;
      assert nodes == nodes[..k] + [nodes[k]];
      SumByRoots(nodes[..k]);
    }
  }

  // The snapshot.

  /** A snapshot line as the line that would book its balance. */
  function Booked(l: SnapshotLine): DraftLine {
    if l.debitBalance > 0 then DraftLine(l.ref, Debit, l.debitBalance) else DraftLine(l.ref, Credit, l.creditBalance)
  }

  function BookedAll(lines: seq<SnapshotLine>): seq<DraftLine> {
    if lines == [] then [] else [Booked(lines[0])] + BookedAll(lines[1..])
  }

  lemma {:induction false} BookedConcat(a: seq<SnapshotLine>, b: seq<SnapshotLine>)
    ensures BookedAll(a + b) == BookedAll(a) + BookedAll(b)
  {
    if a == [] {
      assert a + b == b;
    } else {
      assert (a + b)[1..] == a[1..] + b;
      BookedConcat(a[1..], b);
    }
  }

  lemma {:induction false} BookedInsert(l: SnapshotLine, lines: seq<SnapshotLine>)
    ensures multiset(BookedAll(Insert(l, lines, SnapshotRank))) == multiset{Booked(l)} + multiset(BookedAll(lines))
  {
    var after := Insert(l, lines, SnapshotRank);
    if lines != [] && !AtMost(SnapshotRank(l), SnapshotRank(lines[0])) {
      BookedInsert(l, lines[1..]);
      assert after[1..] == Insert(l, lines[1..], SnapshotRank);
    } else {
      assert after[1..] == lines;
    }
  }

  lemma {:induction false} BookedSort(lines: seq<SnapshotLine>)
    ensures multiset(BookedAll(Sort(lines, SnapshotRank))) == multiset(BookedAll(lines))
  {
    if lines != [] {
      BookedSort(lines[1..]);
      BookedInsert(lines[0], Sort(lines[1..], SnapshotRank));
    }
  }

  lemma {:induction false} RowsAreReopening(nodes: seq<BalanceNode>)
    ensures multiset(BookedAll(SnapshotRows(nodes)))
         == multiset(Mirror(Cancelling(nodes, Credit, Patrimonial())))
            + multiset(Mirror(Cancelling(nodes, Debit, Patrimonial())))
  {
    if nodes != [] {
      var k := |nodes| - 1;
      RowsAreReopening(nodes[..k]);
      CancellingStep(nodes, Credit);
      CancellingStep(nodes, Debit);
      RowsStep(nodes);
    }
  }

  /** The lines the last node adds to a reopening, and to the snapshot. */
  function LastBooked(nodes: seq<BalanceNode>, side: Side): seq<DraftLine>
    requires nodes != []
  {
    var n := nodes[|nodes| - 1];
    if Patrimonial()(n.ref) && n.Balance(side) > 0 then [DraftLine(n.ref, side, n.Balance(side))] else []
  }

  lemma CancellingStep(nodes: seq<BalanceNode>, side: Side)
    requires nodes != []
    ensures Mirror(Cancelling(nodes, side, Patrimonial()))
         == Mirror(Cancelling(nodes[..|nodes| - 1], side, Patrimonial())) + LastBooked(nodes, side)
  {
    var n := nodes[|nodes| - 1];
    MirrorConcat(Cancelling(nodes[..|nodes| - 1], side, Patrimonial()), DraftLine(n.ref, Opposite(side), n.Balance(side)));
  }

  lemma BookedOne(row: SnapshotLine)
    ensures BookedAll([row]) == [Booked(row)]
  {
    assert [row][1..] == [];
  }

  lemma LastBookedIs(nodes: seq<BalanceNode>)
    requires nodes != []
    requires var n := nodes[|nodes| - 1];
             Patrimonial()(n.ref) && (n.Balance(Debit) > 0 || n.Balance(Credit) > 0)
    ensures var n := nodes[|nodes| - 1];
            LastBooked(nodes, Credit) + LastBooked(nodes, Debit)
            == [Booked(SnapshotLine(n.ref, n.Balance(Debit), n.Balance(Credit)))]
  {
  }

  lemma RowsStep(nodes: seq<BalanceNode>)
    requires nodes != []
    ensures BookedAll(SnapshotRows(nodes))
         == BookedAll(SnapshotRows(nodes[..|nodes| - 1])) + LastBooked(nodes, Credit) + LastBooked(nodes, Debit)
  {
    var n := nodes[|nodes| - 1];
    var before := SnapshotRows(nodes[..|nodes| - 1]);
    var row := SnapshotLine(n.ref, n.Balance(Debit), n.Balance(Credit));
    if Patrimonial()(n.ref) && (n.Balance(Debit) > 0 || n.Balance(Credit) > 0) {
      assert SnapshotRows(nodes) == before + [row];
      BookedConcat(before, [row]);
      BookedOne(row);
      LastBookedIs(nodes);
    } else {
      assert SnapshotRows(nodes) == before;
    }
  }

  lemma MirrorConcat(lines: seq<DraftLine>, l: DraftLine)
    ensures Mirror(lines + [l]) == Mirror(lines) + [l.(side := Opposite(l.side))]
  {
  }

  /** The snapshot carries exactly the accounts, sides and amounts of the reopening entry. */
  lemma SnapshotIsReopening(nodes: seq<BalanceNode>)
    ensures multiset(BookedAll(SnapshotLines(nodes))) == multiset(Mirror(PatrimonialLines(nodes)))
  {
    BookedSort(SnapshotRows(nodes));
    RowsAreReopening(nodes);
    MirrorOfBoth(Cancelling(nodes, Credit, Patrimonial()), Cancelling(nodes, Debit, Patrimonial()));
  }

  lemma MirrorOfBoth(a: seq<DraftLine>, b: seq<DraftLine>)
    ensures Mirror(a + b) == Mirror(a) + Mirror(b)
  {
  }

  /** Snapshot lines stand in the order of their account codes. */
  lemma SnapshotByCode(nodes: seq<BalanceNode>)
    ensures Sorted(SnapshotLines(nodes), SnapshotRank)
  {
    SortSorts(SnapshotRows(nodes), SnapshotRank);
  }

  /** The balances of the selected snapshot lines on one side. */
  function SnapshotTotal(lines: seq<SnapshotLine>, side: Side, p: Selection): int {
    if lines == [] then 0
    else (if !p(lines[0].ref) then 0 else if side == Debit then lines[0].debitBalance else lines[0].creditBalance)
         + SnapshotTotal(lines[1..], side, p)
  }

  function SnapshotNet(lines: seq<SnapshotLine>, p: Selection): int {
    SnapshotTotal(lines, Debit, p) - SnapshotTotal(lines, Credit, p)
  }

  lemma {:induction false} SnapshotTotalConcat(a: seq<SnapshotLine>, b: seq<SnapshotLine>, side: Side, p: Selection)
    ensures SnapshotTotal(a + b, side, p) == SnapshotTotal(a, side, p) + SnapshotTotal(b, side, p)
  {
    if a == [] {
      assert a + b == b;
    } else {
      assert (a + b)[1..] == a[1..] + b;
      SnapshotTotalConcat(a[1..], b, side, p);
    }
  }

  lemma {:induction false} SnapshotTotalInsert(l: SnapshotLine, lines: seq<SnapshotLine>, side: Side, p: Selection)
    ensures SnapshotTotal(Insert(l, lines, SnapshotRank), side, p)
         == SnapshotTotal([l], side, p) + SnapshotTotal(lines, side, p)
  {
    assert [l][1..] == [];
    var after := Insert(l, lines, SnapshotRank);
    if lines != [] && !AtMost(SnapshotRank(l), SnapshotRank(lines[0])) {
      SnapshotTotalInsert(l, lines[1..], side, p);
      assert after[1..] == Insert(l, lines[1..], SnapshotRank);
    } else {
      assert after[1..] == lines;
    }
  }

  lemma {:induction false} SnapshotTotalSort(lines: seq<SnapshotLine>, side: Side, p: Selection)
    ensures SnapshotTotal(Sort(lines, SnapshotRank), side, p) == SnapshotTotal(lines, side, p)
  {
    if lines != [] {
      SnapshotTotalSort(lines[1..], side, p);
      SnapshotTotalInsert(lines[0], Sort(lines[1..], SnapshotRank), side, p);
      SnapshotTotalConcat([lines[0]], lines[1..], side, p);
      assert [lines[0]] + lines[1..] == lines;
    }
  }

  lemma {:induction false} RowsTotal(nodes: seq<BalanceNode>, side: Side, p: Selection)
    ensures SnapshotTotal(SnapshotRows(nodes), side, p) == SumBalance(nodes, side, Both(Patrimonial(), p))
  {
    if nodes != [] {
      var k := |nodes| - 1;
      var n := nodes[k];
      RowsTotal(nodes[..k], side, p);
      var row := SnapshotLine(n.ref, n.Balance(Debit), n.Balance(Credit));
      SnapshotTotalConcat(SnapshotRows(nodes[..k]), [row], side, p);
      SnapshotTotalConcat(SnapshotRows(nodes[..k]), [], side, p);
      assert [row][1..] == [];
    }
  }

  /** The snapshot carries, for any selection, what the patrimonial nodes hold: side by side, and so as a net. */
  lemma SnapshotCarries(nodes: seq<BalanceNode>, p: Selection)
    ensures SnapshotTotal(SnapshotLines(nodes), Debit, p) == SumBalance(nodes, Debit, Both(Patrimonial(), p))
    ensures SnapshotTotal(SnapshotLines(nodes), Credit, p) == SumBalance(nodes, Credit, Both(Patrimonial(), p))
    ensures SnapshotNet(SnapshotLines(nodes), p) == SumNet(nodes, Both(Patrimonial(), p))
  {
    SnapshotTotalSort(SnapshotRows(nodes), Debit, p);
    SnapshotTotalSort(SnapshotRows(nodes), Credit, p);
    RowsTotal(nodes, Debit, p);
    RowsTotal(nodes, Credit, p);
    NetIsBalances(nodes, Both(Patrimonial(), p));
  }
}
