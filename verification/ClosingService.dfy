/** The closing service: the planner over a mutable balance map, and the execution of its plan. */
module ClosingService {
  import opened Basics
  import opened Model
  import opened Turnovers
  import opened Journal
  import opened AccountResolution
  import opened ClosingSupport
  import opened Exercises
  import opened Balances
  import opened ClosingPlan
  import PlanProperties

  method ValidateRequest(b: Books, req: Request) returns (failure: Option<Error>)
    ensures failure == RequestVerdict(b, req)
  {
    if !HasOpening(b.entries) {
      return Some(NotOpened);
    }
    var exercises := BuildLogicalExercises(b);
    if exercises.Err? {
      return Some(exercises.error);
    }
    var current := Current(exercises.value);
    if current.None? || !current.value.Open() {
      return Some(NoOpenExercise);
    }
    if req.closing < current.value.start {
      return Some(BeforeExerciseStart);
    }
    if Closed(b.closedUntil, req.closing) {
      return Some(PeriodAlreadyClosed);
    }
    if req.reopening <= req.closing {
      return Some(ReopeningNotLater);
    }
    if exists e :: e in b.entries && e.date > req.closing {
      return Some(LaterEntriesExist);
    }
    if exists e :: e in b.entries && e.source == PatrimonialClosing && e.date == req.closing {
      return Some(DuplicateClosing);
    }
    if exists e :: e in b.entries && e.source == Reopening && e.date == req.reopening {
      return Some(DuplicateReopening);
    }
    return None;
  }

  /** One adjustment: drafted against the aggregate of its colectiva and applied at once. */
  method Adjust(balances: BalanceMap, date: Date, actual: Option<int>,
                asset: AccountRef, surplus: AccountRef, shortage: AccountRef) returns (entries: seq<Draft>)
    modifies balances
    ensures entries == Adjustments(old(balances.nodes), date, actual, asset, surplus, shortage)
    ensures balances.nodes == ApplyLines(old(balances.nodes), LinesOf(entries))
  {
    entries := [];
    if actual.Some? {
      var book := SumNet(balances.nodes, Under(asset.parent));
      var difference := actual.value - book;
      if difference != 0 {
        var lines := if difference > 0
                     then [DraftLine(asset, Debit, difference), DraftLine(surplus, Credit, difference)]
                     else [DraftLine(shortage, Debit, -difference), DraftLine(asset, Credit, -difference)];
        var entry := Draft(date, Adjustment, lines);
        entries := [entry];
        PlanProperties.LinesOfOne(entry);
        balances.ApplyEntry(lines);
      }
    }
  }

  /** `_build_adjustment_entries`: the inventory is counted against balances that include the cash adjustment. */
  method BuildAdjustmentEntries(balances: BalanceMap, req: Request) returns (entries: seq<Draft>)
    modifies balances
    ensures entries == AdjustmentDrafts(old(balances.nodes), req)
    ensures balances.nodes == ApplyLines(old(balances.nodes), LinesOf(entries))
  {
    ghost var loaded := balances.nodes;
    var cash := Adjust(balances, req.closing, req.cash, CASH_REF, CASH_SURPLUS, CASH_SHORTAGE);
    var inventory := Adjust(balances, req.closing, req.inventory, INVENTORY_REF, INVENTORY_SURPLUS, INVENTORY_SHORTAGE);
    entries := cash + inventory;
    PlanProperties.LinesOfConcat(cash, inventory);
    PlanProperties.ApplyConcat(loaded, LinesOf(cash), LinesOf(inventory));
  }

  /** The totals of exactly the colectivas that have patrimonial nodes. */
  ghost predicate Grouped(nodes: seq<BalanceNode>, grouped: map<Code, (int, int)>) {
    && (forall c :: c in grouped <==> exists n :: n in nodes && n.ref.parent == c && Patrimonial()(n.ref))
    && (forall c :: c in grouped ==> grouped[c] == (Sum(nodes, Debit, Under(c)), Sum(nodes, Credit, Under(c))))
  }

  /** The totals with one more node. */
  function WithNode(grouped: map<Code, (int, int)>, n: BalanceNode): map<Code, (int, int)> {
    if Patrimonial()(n.ref) then
      var totals := if n.ref.parent in grouped then grouped[n.ref.parent] else (0, 0);
      grouped[n.ref.parent := (totals.0 + n.debit, totals.1 + n.credit)]
    else grouped
  }

  lemma GroupedNone()
    ensures Grouped([], map[])
  {
  }

  lemma GroupedOneMore(nodes: seq<BalanceNode>, n: BalanceNode, grouped: map<Code, (int, int)>)
    requires Grouped(nodes, grouped)
    ensures Grouped(nodes + [n], WithNode(grouped, n))
  {
    var c := n.ref.parent;
    if c !in grouped && Patrimonial()(n.ref) {
      NothingUnder(nodes, Debit, c);
      NothingUnder(nodes, Credit, c);
    }
    forall c' ensures Sum(nodes + [n], Debit, Under(c')) == Sum(nodes, Debit, Under(c')) + if c' == c then n.debit else 0
              ensures Sum(nodes + [n], Credit, Under(c')) == Sum(nodes, Credit, Under(c')) + if c' == c then n.credit else 0
    {
      SumOfOneMore(nodes, n, Debit, Under(c'));
      SumOfOneMore(nodes, n, Credit, Under(c'));
    }
  }

  /** The totals by colectiva of the patrimonial nodes. */
  method GroupPatrimonial(nodes: seq<BalanceNode>) returns (grouped: map<Code, (int, int)>)
    ensures Grouped(nodes, grouped)
  {
    hide Grouped;
    grouped := map[];
    GroupedNone();
    for i := 0 to |nodes|
      invariant Grouped(nodes[..i], grouped)
    {
      var n := nodes[i];
      assert nodes[..i + 1] == nodes[..i] + [n];
      GroupedOneMore(nodes[..i], n, grouped);
      ghost var before := grouped;
      if Patrimonial()(n.ref) {
        var c := n.ref.parent;
        var totals := if c in grouped then grouped[c] else (0, 0);
        grouped := grouped[c := (totals.0 + n.debit, totals.1 + n.credit)];
      }
      assert grouped == WithNode(before, n);
    }
    assert nodes[..|nodes|] == nodes;
  }

  lemma {:induction false} NothingUnder(nodes: seq<BalanceNode>, side: Side, c: Code)
    requires forall n :: n in nodes ==> n.ref.parent != c
    ensures Sum(nodes, side, Under(c)) == 0
  {
    if nodes != [] {
      var k := |nodes| - 1;
      assert nodes == nodes[..k] + [nodes[k]];
      NothingUnder(nodes[..k], side, c);
    }
  }

  /** `_validate_patrimonial_natural_balances`: totals are grouped by colectiva before the sides are checked. */
  method ValidateNaturalBalances(nodes: seq<BalanceNode>) returns (failure: Option<Error>)
    ensures failure == NaturalVerdict(nodes)
  {
    var grouped := GroupPatrimonial(nodes);
    assert forall c :: c in grouped ==> grouped[c].0 - grouped[c].1 == SumNet(nodes, Under(c));
    assert forall n :: n in nodes && Patrimonial()(n.ref) ==> n.ref.parent in grouped;
    if exists c :: c in grouped && c.root == 1 && grouped[c].0 - grouped[c].1 < 0 {
      return Some(AssetSide);
    }
    assert !exists n :: n in nodes && WrongSide(nodes, n, 1, Debit);
    if exists c :: c in grouped && c.root == 2 && grouped[c].1 - grouped[c].0 < 0 {
      return Some(LiabilitySide);
    }
    assert !exists n :: n in nodes && WrongSide(nodes, n, 2, Credit);
    if exists c :: c in grouped && c.root == 3 && grouped[c].1 - grouped[c].0 < 0 {
      return Some(EquitySide);
    }
    return None;
  }

  /** `_build_result_closing_entries`. The gain lines read the nodes after the loss entry has been applied to them. */
  method BuildResultClosingEntries(balances: BalanceMap, date: Date, ghost accounts: seq<Account>)
      returns (entries: seq<Draft>)
    requires CanonicalNodes(accounts, balances.nodes)
    modifies balances
    ensures entries == ResultDrafts(old(balances.nodes), date)
    ensures balances.nodes == ApplyLines(old(balances.nodes), LinesOf(entries))
  {
    entries := [];
    ghost var adjusted := balances.nodes;
    var losses := Cancelling(balances.nodes, Debit, Rooted(4));
    var positive := Cancelling(balances.nodes, Credit, Rooted(5));
    var totalPositive := SumBalance(balances.nodes, Credit, Rooted(5));
    if losses != [] {
      var lines := [DraftLine(RESULT_REF, Debit, SumBalance(balances.nodes, Debit, Rooted(4)))] + losses;
      var entry := Draft(date, ResultClosing, lines);
      entries := [entry];
      PlanProperties.LinesOfOne(entry);
      balances.ApplyEntry(lines);
      GainsKept(accounts, adjusted, date);
    }
    assert entries == LossDrafts(adjusted, date);
    if positive != [] {
      var lines := Cancelling(balances.nodes, Credit, Rooted(5)) + [DraftLine(RESULT_REF, Credit, totalPositive)];
      var entry := Draft(date, ResultClosing, lines);
      PlanProperties.LinesOfConcat(entries, [entry]);
      PlanProperties.LinesOfOne(entry);
      PlanProperties.ApplyConcat(adjusted, LinesOf(entries), lines);
      entries := entries + [entry];
      balances.ApplyEntry(lines);
    }
  }

  /** The loss entry leaves the gain lines as they were. */
  lemma GainsKept(accounts: seq<Account>, nodes: seq<BalanceNode>, date: Date)
    requires CanonicalNodes(accounts, nodes) && Cancelling(nodes, Debit, Rooted(4)) != []
    ensures Cancelling(ApplyLines(nodes, LossLines(nodes)), Credit, Rooted(5)) == Cancelling(nodes, Credit, Rooted(5))
  {
    PlanProperties.LossDraftsOk(accounts, nodes, date);
    assert Draft(date, ResultClosing, LossLines(nodes)) in LossDrafts(nodes, date);
    LossRubros(nodes);
    OtherRubroKept(accounts, nodes, LossLines(nodes), Credit, 5);
  }

  lemma LossRubros(nodes: seq<BalanceNode>)
    ensures forall l :: l in LossLines(nodes) ==> l.ref.parent.root != 5
  {
    PlanProperties.CancellingLines(nodes, Debit, Rooted(4));
  }

  /** Lines of other rubros leave the balances of a rubro, and so the lines that cancel them, as they were. */
  lemma {:induction false} OtherRubroKept(accounts: seq<Account>, nodes: seq<BalanceNode>, lines: seq<DraftLine>,
                                          side: Side, root: nat)
    requires CanonicalNodes(accounts, nodes) && CanonicalLines(accounts, nodes, lines)
    requires forall l :: l in lines ==> l.ref.parent.root != root
    ensures Cancelling(ApplyLines(nodes, lines), side, Rooted(root)) == Cancelling(nodes, side, Rooted(root))
  {
    if lines != [] {
      var k := |lines| - 1;
      assert lines == lines[..k] + [lines[k]];
      OtherRubroKept(accounts, nodes, lines[..k], side, root);
      ApplyLinesAdds(accounts, nodes, lines[..k]);
      var before := ApplyLines(nodes, lines[..k]);
      OtherLineKept(accounts, before, lines[k], side, root);
    }
  }

  lemma OtherLineKept(accounts: seq<Account>, nodes: seq<BalanceNode>, l: DraftLine, side: Side, root: nat)
    requires CanonicalNodes(accounts, nodes) && Canonical(accounts, l.ref) && l.ref.parent.root != root
    requires l.ref.id.Some? ==> exists n :: n in nodes && n.ref == l.ref
    ensures Cancelling(ApplyLine(nodes, l), side, Rooted(root)) == Cancelling(nodes, side, Rooted(root))
  {
    if l.ref.id.Some? {
      FoundIfPresent(nodes, l.ref);
    }
    var i := IndexOf(nodes, KeyOf(l.ref));
    if i < |nodes| {
      assert nodes[i] in nodes;
      KeysTellApart(accounts, nodes[i].ref, l.ref);
      ChargeKeeps(nodes, i, l, side, root);
    } else {
      var after := ApplyLine(nodes, l);
      assert after[..|nodes|] == nodes;
    }
  }

  lemma {:induction false} ChargeKeeps(nodes: seq<BalanceNode>, i: nat, l: DraftLine, side: Side, root: nat)
    requires i < |nodes| && nodes[i].ref.parent.root != root
    ensures Cancelling(ChargeAt(nodes, i, l), side, Rooted(root)) == Cancelling(nodes, side, Rooted(root))
    decreases |nodes|
  {
    var n := |nodes| - 1;
    if i == n {
      assert ChargeAt(nodes, i, l)[..n] == nodes[..n];
    } else {
      assert ChargeAt(nodes, i, l)[..n] == ChargeAt(nodes[..n], i, l);
      ChargeKeeps(nodes[..n], i, l, side, root);
    }
  }

  /** `build_simplified_closing_plan`. */
  method BuildSimplifiedClosingPlan(b: Books, req: Request) returns (r: Result<Plan>)
    ensures r == BuildPlan(b, req)
  {
    var failure := ValidateRequest(b, req);
    if failure.Some? {
      return Err(failure.value);
    }
    var loaded := LoadNodes(b, req.closing);
    NodesForCanonical(ByCode(b.accounts), b.accounts, LinesIn(b.entries, UpTo(req.closing)));
    var balances := new BalanceMap(loaded);
    var adjustments := BuildAdjustmentEntries(balances, req);
    PlanProperties.AdjustedCanonical(b.accounts, loaded, req);
    failure := ValidateNaturalBalances(balances.nodes);
    if failure.Some? {
      return Err(failure.value);
    }
    failure := ResultsVerdict(balances.nodes);
    if failure.Some? {
      return Err(failure.value);
    }
    var sheet := SheetOf(balances.nodes);
    var results := BuildResultClosingEntries(balances, req.closing, b.accounts);
    var snapshotLines := SnapshotLines(balances.nodes);
    var lines := PatrimonialLines(balances.nodes);
    if lines == [] {
      return Err(NothingToClose);
    }
    return Ok(Plan(adjustments, results, Draft(req.closing, PatrimonialClosing, lines),
                   Draft(req.reopening, Reopening, Mirror(lines)), sheet, snapshotLines));
  }
}
