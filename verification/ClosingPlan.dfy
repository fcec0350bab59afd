/** The planner: from the balances at the closing date to the drafts of a closing. */
module ClosingPlan {
  import opened Basics
  import opened Sorting
  import opened Model
  import opened Turnovers
  import opened Journal
  import opened AccountResolution
  import opened ClosingSupport
  import opened Exercises
  import opened Balances

  datatype Request = Request(closing: Date, reopening: Date, cash: Option<int>, inventory: Option<int>)

  datatype Plan = Plan(adjustments: seq<Draft>, results: seq<Draft>, patrimonial: Draft, reopening: Draft,
                       sheet: BalanceSheet, snapshotLines: seq<SnapshotLine>)
  {
    /** The drafts in posting order. */
    function Drafts(): seq<Draft> { adjustments + results + [patrimonial, reopening] }
  }

  const CASH_REF := VirtualRef(CASH, "Caja")
  const CASH_SURPLUS := VirtualRef(Code(5, 6), "Sobrante de Caja")
  const CASH_SHORTAGE := VirtualRef(Code(4, 12), "Faltante de Caja")
  const INVENTORY_REF := VirtualRef(INVENTORY, "Mercaderías")
  const INVENTORY_SURPLUS := VirtualRef(Code(5, 7), "Sobrante de Mercaderías")
  const INVENTORY_SHORTAGE := VirtualRef(Code(4, 13), "Faltante de Mercaderías")
  const RESULT_REF := VirtualRef(RESULT, "Resultado del Ejercicio")

  /** The error `_validate_request` raises, if any. */
  function RequestVerdict(b: Books, req: Request): Option<Error> {
    if !HasOpening(b.entries) then Some(NotOpened)
    else match LogicalExercises(b)
      case Err(error) => Some(error)
      case Ok(exercises) =>
        var current := Current(exercises);
        if current.None? || !current.value.Open() then Some(NoOpenExercise)
        else if req.closing < current.value.start then Some(BeforeExerciseStart)
        else if Closed(b.closedUntil, req.closing) then Some(PeriodAlreadyClosed)
        else if req.reopening <= req.closing then Some(ReopeningNotLater)
        else if exists e :: e in b.entries && e.date > req.closing then Some(LaterEntriesExist)
        else if exists e :: e in b.entries && e.source == PatrimonialClosing && e.date == req.closing
        then Some(DuplicateClosing)
        else if exists e :: e in b.entries && e.source == Reopening && e.date == req.reopening
        then Some(DuplicateReopening)
        else None
  }

  function LinesOf(drafts: seq<Draft>): seq<DraftLine> {
    if drafts == [] then [] else LinesOf(drafts[..|drafts| - 1]) + drafts[|drafts| - 1].lines
  }

  // Adjustments.

  /** The adjustment that brings a colectiva to its counted amount: against a surplus or a shortage account. */
  function Adjustments(nodes: seq<BalanceNode>, date: Date, actual: Option<int>,
                       asset: AccountRef, surplus: AccountRef, shortage: AccountRef): seq<Draft>
  {
    if actual.None? then []
    else AdjustmentOf(date, actual.value - SumNet(nodes, Under(asset.parent)), asset, surplus, shortage)
  }

  function AdjustmentOf(date: Date, difference: int, asset: AccountRef, surplus: AccountRef,
                        shortage: AccountRef): seq<Draft> {
    if difference == 0 then []
    else if difference > 0 then
      [Draft(date, Adjustment, [DraftLine(asset, Debit, difference), DraftLine(surplus, Credit, difference)])]
    else
      [Draft(date, Adjustment, [DraftLine(shortage, Debit, -difference), DraftLine(asset, Credit, -difference)])]
  }

  function CashDrafts(nodes: seq<BalanceNode>, req: Request): seq<Draft> {
    Adjustments(nodes, req.closing, req.cash, CASH_REF, CASH_SURPLUS, CASH_SHORTAGE)
  }

  function InventoryDrafts(nodes: seq<BalanceNode>, req: Request): seq<Draft> {
    Adjustments(nodes, req.closing, req.inventory, INVENTORY_REF, INVENTORY_SURPLUS, INVENTORY_SHORTAGE)
  }

  function AdjustmentDrafts(nodes: seq<BalanceNode>, req: Request): seq<Draft> {
    var cash := CashDrafts(nodes, req);
    cash + InventoryDrafts(ApplyLines(nodes, LinesOf(cash)), req)
  }

  // Guards.

  /** The side on which a colectiva of a rubro must balance, and the error when it does not. */
  predicate WrongSide(nodes: seq<BalanceNode>, n: BalanceNode, root: nat, side: Side) {
    n.ref.parent.root == root
    && (if side == Debit then SumNet(nodes, Under(n.ref.parent)) < 0 else SumNet(nodes, Under(n.ref.parent)) > 0)
  }

  /** The error `_validate_patrimonial_natural_balances` raises, if any: it looks at whole colectivas. */
  function NaturalVerdict(nodes: seq<BalanceNode>): Option<Error> {
    if exists n :: n in nodes && WrongSide(nodes, n, 1, Debit) then Some(AssetSide)
    else if exists n :: n in nodes && WrongSide(nodes, n, 2, Credit) then Some(LiabilitySide)
    else if exists n :: n in nodes && WrongSide(nodes, n, 3, Credit) then Some(EquitySide)
    else None
  }

  /** The error `_collect_result_nodes` raises, if any: it looks at every node. */
  function ResultsVerdict(nodes: seq<BalanceNode>): Option<Error> {
    if exists n :: n in nodes && n.ref.parent.root == 4 && n.Balance(Credit) > 0 then Some(NegativeResultSide)
    else if exists n :: n in nodes && n.ref.parent.root == 5 && n.Balance(Debit) > 0 then Some(PositiveResultSide)
    else None
  }

  function SheetOf(nodes: seq<BalanceNode>): BalanceSheet {
    BalanceSheet(SumBalance(nodes, Debit, Rooted(1)), SumBalance(nodes, Credit, Rooted(2)),
                 SumBalance(nodes, Credit, Rooted(3)),
                 SumBalance(nodes, Credit, Rooted(5)) - SumBalance(nodes, Debit, Rooted(4)))
  }

  // Closing drafts.

  /** Lines that cancel the balances the selected nodes have on one side. */
  function Cancelling(nodes: seq<BalanceNode>, side: Side, p: Selection): seq<DraftLine> {
    if nodes == [] then []
    else
      var k := |nodes| - 1;
      var n := nodes[k];
      Cancelling(nodes[..k], side, p)
      + if p(n.ref) && n.Balance(side) > 0 then [DraftLine(n.ref, Opposite(side), n.Balance(side))] else []
  }

  function LossLines(nodes: seq<BalanceNode>): seq<DraftLine> {
    [DraftLine(RESULT_REF, Debit, SumBalance(nodes, Debit, Rooted(4)))] + Cancelling(nodes, Debit, Rooted(4))
  }

  function GainLines(nodes: seq<BalanceNode>): seq<DraftLine> {
    Cancelling(nodes, Credit, Rooted(5)) + [DraftLine(RESULT_REF, Credit, SumBalance(nodes, Credit, Rooted(5)))]
  }

  function LossDrafts(nodes: seq<BalanceNode>, date: Date): seq<Draft> {
    if Cancelling(nodes, Debit, Rooted(4)) != [] then [Draft(date, ResultClosing, LossLines(nodes))] else []
  }

  function GainDrafts(nodes: seq<BalanceNode>, date: Date): seq<Draft> {
    if Cancelling(nodes, Credit, Rooted(5)) != [] then [Draft(date, ResultClosing, GainLines(nodes))] else []
  }

  /** Losses are closed into the result of the exercise, then gains. */
  function ResultDrafts(nodes: seq<BalanceNode>, date: Date): seq<Draft> {
    LossDrafts(nodes, date) + GainDrafts(nodes, date)
  }

  function PatrimonialLines(nodes: seq<BalanceNode>): seq<DraftLine> {
    Cancelling(nodes, Credit, Patrimonial()) + Cancelling(nodes, Debit, Patrimonial())
  }

  /** Every line with its side exchanged: the reopening of a patrimonial closing. */
  function Mirror(lines: seq<DraftLine>): seq<DraftLine> {
    seq(|lines|, i requires 0 <= i < |lines| => lines[i].(side := Opposite(lines[i].side)))
  }

  function SnapshotRows(nodes: seq<BalanceNode>): seq<SnapshotLine> {
    if nodes == [] then []
    else
      var k := |nodes| - 1;
      var n := nodes[k];
      SnapshotRows(nodes[..k])
      + if Patrimonial()(n.ref) && (n.Balance(Debit) > 0 || n.Balance(Credit) > 0)
        then [SnapshotLine(n.ref, n.Balance(Debit), n.Balance(Credit))] else []
  }

  function SnapshotRank(l: SnapshotLine): (int, int) {
    (l.ref.parent.root * 100 + l.ref.parent.local, if l.ref.suffix.Some? then l.ref.suffix.value else 0)
  }

  /** `_build_snapshot_lines`: by account code, a virtual account standing at its colectiva. */
  function SnapshotLines(nodes: seq<BalanceNode>): seq<SnapshotLine> { Sort(SnapshotRows(nodes), SnapshotRank) }

  // The plan.

  function Adjusted(loaded: seq<BalanceNode>, req: Request): seq<BalanceNode> {
    ApplyLines(loaded, LinesOf(AdjustmentDrafts(loaded, req)))
  }

  /** The balances a plan ends with: what the patrimonial closing closes. */
  function Final(loaded: seq<BalanceNode>, req: Request): seq<BalanceNode> {
    var adjusted := Adjusted(loaded, req);
    ApplyLines(adjusted, LinesOf(ResultDrafts(adjusted, req.closing)))
  }

  /** The part of the plan computed from the loaded nodes alone. */
  function PlanFrom(loaded: seq<BalanceNode>, req: Request): Result<Plan> {
    var adjusted := Adjusted(loaded, req);
    match NaturalVerdict(adjusted)
    case Some(error) => Err(error)
    case None =>
      match ResultsVerdict(adjusted)
      case Some(error) => Err(error)
      case None =>
        var final := Final(loaded, req);
        if PatrimonialLines(final) == [] then Err(NothingToClose)
        else Ok(Plan(AdjustmentDrafts(loaded, req), ResultDrafts(adjusted, req.closing),
                     Draft(req.closing, PatrimonialClosing, PatrimonialLines(final)),
                     Draft(req.reopening, Reopening, Mirror(PatrimonialLines(final))),
                     SheetOf(adjusted), SnapshotLines(final)))
  }

  /** `build_simplified_closing_plan`. */
  function BuildPlan(b: Books, req: Request): Result<Plan> {
    match RequestVerdict(b, req)
    case Some(error) => Err(error)
    case None => PlanFrom(LoadNodes(b, req.closing), req)
  }
}
