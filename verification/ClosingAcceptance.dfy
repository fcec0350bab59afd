/** Exactly which closings are accepted, in terms of the journal. */
module ClosingAcceptance {
  import opened Basics
  import opened Model
  import opened Turnovers
  import opened Journal
  import opened AccountResolution
  import opened ClosingSupport
  import opened Exercises
  import opened Balances
  import opened ClosingPlan
  import opened ClosingExecution
  import opened PlanProperties
  import opened ClosingTheorems
  import opened Runs
  import opened ClosingEffects

  // The request.

  lemma AdmittedPasses(b: Books, req: Request, start: Date)
    requires Admitted(b, req) && LogicalExercises(b).Ok? && InProgress(Current(LogicalExercises(b).value), start)
    requires start <= req.closing
    requires forall e :: e in b.entries && e.source == PatrimonialClosing ==> e.date != req.closing
    ensures RequestVerdict(b, req).None?
  {
  }

  lemma ClosingsBefore(b: Books, date: Date)
    requires Locked(b.entries, b.closedUntil) && !Closed(b.closedUntil, date)
    ensures forall e :: e in b.entries && e.source == PatrimonialClosing ==> e.date != date
  {
    forall e | e in b.entries && e.source == PatrimonialClosing ensures e.date != date {
      assert Closed(b.closedUntil, e.date);
    }
  }

  lemma LastBoundaryBefore(entries: seq<Entry>, until: Date)
    requires Boundaries(entries) != [] && forall e :: e in entries ==> e.date <= until
    ensures Boundaries(entries)[|Boundaries(entries)| - 1].date <= until
  {
    BoundariesAre(entries);
    assert Boundaries(entries)[|Boundaries(entries)| - 1] in Boundaries(entries);
  }

  /** In sound books the request is valid exactly when the company is opened, nothing is dated after the closing, the
      lock is before it and the reopening after it: the other checks follow from these. */
  lemma RequestGuardIff(b: Books, req: Request)
    requires Inv(b)
    ensures RequestVerdict(b, req).None? <==> Admitted(b, req)
  {
    if RequestVerdict(b, req).None? {
      RequestFacts(b, req);
    }
    if Admitted(b, req) {
      OpenedIff(b.entries);
      ExerciseInProgress(b);
      LastBoundaryBefore(b.entries, req.closing);
      ClosingsBefore(b, req.closing);
      AdmittedPasses(b, req, Boundaries(b.entries)[|Boundaries(b.entries)| - 1].date);
    }
  }

  lemma SidesOfTwoMore(nodes: seq<BalanceNode>, m: BalanceNode, n: BalanceNode, root: nat)
    requires ResultSide(m.ref.parent, m.debit - m.credit) && ResultSide(n.ref.parent, n.debit - n.credit)
    ensures RubroSides(nodes + [m] + [n], root) <==> RubroSides(nodes, root)
  {
    forall x | x in nodes ensures x in nodes + [m] + [n] {
    }
  }

  lemma NewSides(nodes: seq<BalanceNode>, a: DraftLine, b: DraftLine, root: nat)
    requires a.ref.id.None? && b.ref.id.None? && a.ref.parent != b.ref.parent && a.amount > 0 && b.amount > 0
    requires a.side == Debit && b.side == Credit && a.ref.parent.root != 5 && b.ref.parent.root != 4
    requires NoVirtual(nodes, a.ref.parent) && NoVirtual(nodes, b.ref.parent)
    ensures RubroSides(ApplyLines(nodes, [a, b]), root) <==> RubroSides(nodes, root)
  {
    TwoNewNodes(nodes, a, b);
    SidesOfTwoMore(nodes, NewNode(a), NewNode(b), root);
  }

  /** A surplus is a gain and a shortage a loss: an adjustment never upsets the sides of the result accounts. */
  lemma AdjustmentSides(nodes: seq<BalanceNode>, date: Date, actual: Option<int>,
                        asset: AccountRef, surplus: AccountRef, shortage: AccountRef, root: nat)
    requires AdjustmentRefs(asset, surplus, shortage)
    requires asset.parent.root == 1 && surplus.parent.root == 5 && shortage.parent.root == 4
    requires NoVirtual(nodes, asset.parent) && NoVirtual(nodes, surplus.parent) && NoVirtual(nodes, shortage.parent)
    ensures RubroSides(ApplyLines(nodes, LinesOf(Adjustments(nodes, date, actual, asset, surplus, shortage))), root)
       <==> RubroSides(nodes, root)
  {
    AdjustmentLines(nodes, date, actual, asset, surplus, shortage);
    if actual.Some? && actual.value != SumNet(nodes, Under(asset.parent)) {
      var (a, b) := Pair(actual.value - SumNet(nodes, Under(asset.parent)), asset, surplus, shortage);
      NewSides(nodes, a, b, root);
    }
  }

  lemma AdjustedSides(accounts: seq<Account>, loaded: seq<BalanceNode>, req: Request, root: nat)
    requires Loaded(loaded)
    ensures RubroSides(Adjusted(loaded, req), root) <==> RubroSides(loaded, root)
  {
    AdjustmentRefsOk();
    var cash := CashDrafts(loaded, req);
    var counted := ApplyLines(loaded, LinesOf(cash));
    AdjustmentUnnatural(loaded, req.closing, req.cash, CASH_REF, CASH_SURPLUS, CASH_SHORTAGE, 1);
    AdjustmentSides(loaded, req.closing, req.cash, CASH_REF, CASH_SURPLUS, CASH_SHORTAGE, root);
    var inventory := InventoryDrafts(counted, req);
    AdjustmentSides(counted, req.closing, req.inventory, INVENTORY_REF, INVENTORY_SURPLUS, INVENTORY_SHORTAGE, root);
    LinesOfConcat(cash, inventory);
    ApplyConcat(loaded, LinesOf(cash), LinesOf(inventory));
  }

  /** The net of an account in the journal up to a date. */
  function AccountAt(b: Books, until: Date, id: AccountId): int {
    Net(LinesIn(b.entries, UpTo(until)), Only(id))
  }

  /** The result accounts of a rubro are on their natural side in the journal. */
  ghost predicate AccountSides(b: Books, until: Date, root: nat) {
    forall id: AccountId :: id < |b.accounts| && b.accounts[id].parent.root == root ==>
      ResultSide(b.accounts[id].parent, AccountAt(b, until, id))
  }

  /** The sides of the loaded result nodes are those of the result accounts in the journal. */
  lemma LoadedSides(b: Books, until: Date, root: nat)
    requires JournalOk(b)
    ensures RubroSides(LoadNodes(b, until), root) <==> AccountSides(b, until, root)
  {
    var lines := LinesIn(b.entries, UpTo(until));
    ByCodeOnce(b.accounts);
    LinesOwned(b, UpTo(until));
    if RubroSides(LoadNodes(b, until), root) {
      forall id: AccountId | id < |b.accounts| && b.accounts[id].parent.root == root
        ensures ResultSide(b.accounts[id].parent, AccountAt(b, until, id))
      {
        if HasLine(lines, id) {
          NodesForMembers(ByCode(b.accounts), b.accounts, lines,
                          BalanceNode(RefOf(b.accounts, id), Turnover(lines, Debit, Only(id)),
                                      Turnover(lines, Credit, Only(id))));
        } else {
          NoLineNoTurnover(lines, id, Debit);
          NoLineNoTurnover(lines, id, Credit);
        }
      }
    }
    if AccountSides(b, until, root) {
      forall n | n in LoadNodes(b, until) && n.ref.parent.root == root ensures ResultSide(n.ref.parent, n.debit - n.credit) {
        NodesForMembers(ByCode(b.accounts), b.accounts, lines, n);
        assert AccountAt(b, until, n.ref.id.value) == n.debit - n.credit;
      }
    }
  }

  /** The error a plan raises over its result accounts, in terms of the journal. */
  lemma ResultErrors(b: Books, req: Request)
    requires JournalOk(b)
    ensures ResultsVerdict(Adjusted(LoadNodes(b, req.closing), req))
         == if !AccountSides(b, req.closing, 4) then Some(NegativeResultSide)
            else if !AccountSides(b, req.closing, 5) then Some(PositiveResultSide) else None
  {
    NodesForReal(ByCode(b.accounts), b.accounts, LinesIn(b.entries, UpTo(req.closing)));
    ResultsVerdictIff(Adjusted(LoadNodes(b, req.closing), req));
    forall root: nat | root == 4 || root == 5
      ensures RubroSides(Adjusted(LoadNodes(b, req.closing), req), root) <==> AccountSides(b, req.closing, root)
    {
      AdjustedSides(b.accounts, LoadNodes(b, req.closing), req, root);
      LoadedSides(b, req.closing, root);
    }
  }

  /** The balances a closing looks at, in the journal: every patrimonial colectiva, at its count if it has one, and
      every result account on its natural side. */
  ghost predicate BalancesFit(b: Books, req: Request) {
    && (forall parent :: NaturalSide(parent, CountedNet(b, req, parent)))
    && (forall id: AccountId :: id < |b.accounts| ==> ResultSide(b.accounts[id].parent, AccountAt(b, req.closing, id)))
  }

  lemma SidesFit(b: Books, req: Request)
    ensures BalancesFit(b, req) <==>
              && (forall parent :: NaturalSide(parent, CountedNet(b, req, parent)))
              && AccountSides(b, req.closing, 4) && AccountSides(b, req.closing, 5)
  {
    hide NaturalSide, CountedNet, AccountAt;
  }

  // What is left to close.

  /** Something patrimonial is left to close: an account has a net in the journal, or a count is off the books. */
  ghost predicate HasBalances(b: Books, req: Request) {
    || (exists id: AccountId :: id < |b.accounts| && b.accounts[id].parent.root <= 3 && AccountAt(b, req.closing, id) != 0)
    || (req.cash.Some? && req.cash.value != ColectivaAt(b, req.closing, CASH))
    || (req.inventory.Some? && req.inventory.value != ColectivaAt(b, req.closing, INVENTORY))
  }

  function PatrimonialOf(id: AccountId): Selection { Both(Patrimonial(), OfAccount(id)) }

  lemma {:induction false} NoLineSelected(lines: seq<DraftLine>, p: Selection)
    requires forall l :: l in lines ==> !p(l.ref)
    ensures DraftNet(lines, p) == 0
  {
    if lines != [] {
      var k := |lines| - 1;
      assert lines == lines[..k] + [lines[k]];
      NoLineSelected(lines[..k], p);
    }
  }

  /** Closing the results moves a selection of patrimonial accounts only where it takes in the result of the exercise. */
  lemma ResultsMoveOnlyResult(accounts: seq<Account>, adjusted: seq<BalanceNode>, date: Date, q: Selection)
    requires CanonicalNodes(accounts, adjusted)
    requires forall r: AccountRef :: q(r) ==> r.parent.root <= 3
    ensures SumNet(ApplyLines(adjusted, LinesOf(ResultDrafts(adjusted, date))), q)
         == SumNet(adjusted, q) - if q(RESULT_REF) then SheetOf(adjusted).netResult else 0
  {
    var lines := LinesOf(ResultDrafts(adjusted, date));
    ResultDraftsOk(accounts, adjusted, date);
    LinesOfCanonical(accounts, adjusted, ResultDrafts(adjusted, date));
    AppliedNet(accounts, adjusted, lines, q);
    ResultMoves(adjusted, date, q);
    NoBalanceSelected(adjusted, Debit, Both(Rooted(4), q));
    NoBalanceSelected(adjusted, Credit, Both(Rooted(5), q));
  }

  lemma {:induction false} NoBalanceSelected(nodes: seq<BalanceNode>, side: Side, p: Selection)
    requires forall n :: n in nodes && p(n.ref) ==> n.Balance(side) == 0
    ensures SumBalance(nodes, side, p) == 0
  {
    if nodes != [] {
      var k := |nodes| - 1;
      assert nodes == nodes[..k] + [nodes[k]];
      NoBalanceSelected(nodes[..k], side, p);
    }
  }

  /** A patrimonial account ends the plan with the net it has in the journal: what is drafted for it is virtual. */
  lemma FinalAccount(b: Books, req: Request, id: AccountId)
    requires JournalOk(b) && id < |b.accounts| && 1 <= b.accounts[id].parent.root <= 3
    ensures SumNet(Final(LoadNodes(b, req.closing), req), PatrimonialOf(id)) == AccountAt(b, req.closing, id)
  {
    var loaded := LoadNodes(b, req.closing);
    var adjustments := LinesOf(AdjustmentDrafts(loaded, req));
    LoadedBalanced(b, req.closing);
    AdjustedBalance(b.accounts, loaded, req);
    VirtualCanonical(b.accounts, loaded, adjustments);
    AppliedNet(b.accounts, loaded, adjustments, PatrimonialOf(id));
    NoLineSelected(adjustments, PatrimonialOf(id));
    ResultsMoveOnlyResult(b.accounts, Adjusted(loaded, req), req.closing, PatrimonialOf(id));
    LoadedAccount(b, req.closing, id);
  }

  lemma LoadedAccount(b: Books, until: Date, id: AccountId)
    requires JournalOk(b) && id < |b.accounts| && 1 <= b.accounts[id].parent.root <= 3
    ensures SumNet(LoadNodes(b, until), PatrimonialOf(id)) == AccountAt(b, until, id)
  {
    ReloadTurnover(b, until, Debit, id);
    ReloadTurnover(b, until, Credit, id);
    forall n | n in LoadNodes(b, until) ensures PatrimonialOf(id)(n.ref) == OfAccount(id)(n.ref) {
      NodesForMembers(ByCode(b.accounts), b.accounts, LinesIn(b.entries, UpTo(until)), n);
    }
    SameNet(LoadNodes(b, until), PatrimonialOf(id), OfAccount(id));
  }

  /** No patrimonial account has a net. */
  ghost predicate AllAtZero(b: Books, until: Date) {
    forall id: AccountId :: id < |b.accounts| && b.accounts[id].parent.root <= 3 ==> AccountAt(b, until, id) == 0
  }

  lemma LoadedAtZero(b: Books, until: Date)
    requires AllAtZero(b, until)
    ensures forall n :: n in LoadNodes(b, until) && n.ref.parent.root <= 3 ==> n.debit == n.credit
  {
    forall n | n in LoadNodes(b, until) && n.ref.parent.root <= 3 ensures n.debit == n.credit {
      NodesForMembers(ByCode(b.accounts), b.accounts, LinesIn(b.entries, UpTo(until)), n);
      assert AccountAt(b, until, n.ref.id.value) == n.debit - n.credit;
    }
  }

  lemma ColectivaAtZero(b: Books, until: Date, parent: Code)
    requires JournalOk(b) && AllAtZero(b, until) && parent.root <= 3
    ensures ColectivaAt(b, until, parent) == 0
  {
    LoadedAtZero(b, until);
    LoadedColectiva(b, until, parent);
    NoneSelected(LoadNodes(b, until), Under(parent));
  }

  lemma OwnedHasLines(b: Books, until: Date, id: AccountId)
    requires JournalOk(b) && AccountAt(b, until, id) != 0
    ensures id < |b.accounts| && InRubro(b.accounts[id].parent)
  {
    var lines := LinesIn(b.entries, UpTo(until));
    if !HasLine(lines, id) {
      NoLineNoTurnover(lines, id, Debit);
      NoLineNoTurnover(lines, id, Credit);
    }
    LinesOwned(b, UpTo(until));
    var l :| l in lines && l.account == id;
  }

  /** A colectiva that keeps a net leaves something to close. */
  lemma SomethingLeft(b: Books, req: Request, parent: Code)
    requires JournalOk(b) && ResultsVerdict(Adjusted(LoadNodes(b, req.closing), req)).None?
    requires 1 <= parent.root <= 3 && parent != RESULT && CountedNet(b, req, parent) != 0
    ensures PatrimonialLines(Final(LoadNodes(b, req.closing), req)) != []
  {
    var loaded := LoadNodes(b, req.closing);
    LoadedBalanced(b, req.closing);
    AdjustedBalance(b.accounts, loaded, req);
    AdjustedIsCounted(b, req, parent);
    ResultsMove(b.accounts, Adjusted(loaded, req), req.closing, parent);
    PatrimonialMoves(Final(loaded, req), Under(parent));
    SameNet(Final(loaded, req), Both(Patrimonial(), Under(parent)), Under(parent));
  }

  /** Where nothing patrimonial is drafted, no account has a net and no count is off the books. */
  lemma NothingDrafted(b: Books, req: Request)
    requires JournalOk(b) && ResultsVerdict(Adjusted(LoadNodes(b, req.closing), req)).None?
    requires PatrimonialLines(Final(LoadNodes(b, req.closing), req)) == []
    ensures !HasBalances(b, req)
  {
    var final := Final(LoadNodes(b, req.closing), req);
    forall id: AccountId | id < |b.accounts| && b.accounts[id].parent.root <= 3 ensures AccountAt(b, req.closing, id) == 0 {
      if AccountAt(b, req.closing, id) != 0 {
        OwnedHasLines(b, req.closing, id);
        FinalAccount(b, req, id);
        PatrimonialMoves(final, OfAccount(id));
      }
    }
    forall parent | parent == CASH || parent == INVENTORY
      ensures CountOf(req, parent).Some? ==> CountOf(req, parent).value == ColectivaAt(b, req.closing, parent)
    {
      ColectivaAtZero(b, req.closing, parent);
      if CountedNet(b, req, parent) != 0 {
        SomethingLeft(b, req, parent);
      }
    }
    assert CountOf(req, CASH) == req.cash && CountOf(req, INVENTORY) == req.inventory;
  }

  /** A count that agrees with the books drafts nothing. */
  lemma CountsAgree(b: Books, req: Request)
    requires JournalOk(b)
    requires req.cash.Some? ==> req.cash.value == ColectivaAt(b, req.closing, CASH)
    requires req.inventory.Some? ==> req.inventory.value == ColectivaAt(b, req.closing, INVENTORY)
    ensures Adjusted(LoadNodes(b, req.closing), req) == LoadNodes(b, req.closing)
  {
    var loaded := LoadNodes(b, req.closing);
    LoadedColectiva(b, req.closing, CASH);
    LoadedColectiva(b, req.closing, INVENTORY);
    assert CashDrafts(loaded, req) == [];
    assert ApplyLines(loaded, LinesOf([])) == loaded;
    assert InventoryDrafts(loaded, req) == [];
    assert AdjustmentDrafts(loaded, req) == [] + [];
  }

  /** With every patrimonial node at zero the results cancel out. */
  lemma ResultsCancel(accounts: seq<Account>, nodes: seq<BalanceNode>)
    requires Balanced(accounts, nodes) && ResultsVerdict(nodes).None?
    requires forall n :: n in nodes && n.ref.parent.root <= 3 ==> n.debit == n.credit
    ensures SheetOf(nodes).netResult == 0
  {
    SheetEquation(accounts, nodes);
    forall side, root | 1 <= root <= 3 ensures SumBalance(nodes, side, Rooted(root)) == 0 {
      NoBalanceSelected(nodes, side, Rooted(root));
    }
  }

  lemma {:induction false} NothingToCancel(nodes: seq<BalanceNode>, side: Side, p: Selection)
    requires forall n :: n in nodes && p(n.ref) ==> n.Balance(side) == 0
    ensures Cancelling(nodes, side, p) == []
  {
    if nodes != [] {
      var k := |nodes| - 1;
      assert nodes == nodes[..k] + [nodes[k]];
      NothingToCancel(nodes[..k], side, p);
    }
  }

  /** Closing the results leaves every patrimonial node at zero where they were at zero. */
  lemma StillAtZero(accounts: seq<Account>, nodes: seq<BalanceNode>, date: Date, n: BalanceNode)
    requires Balanced(accounts, nodes) && Distinct(nodes) && ResultsVerdict(nodes).None?
    requires forall m :: m in nodes && m.ref.parent.root <= 3 ==> m.debit == m.credit
    requires n in ApplyLines(nodes, LinesOf(ResultDrafts(nodes, date))) && n.ref.parent.root <= 3
    ensures n.debit == n.credit
  {
    var lines := LinesOf(ResultDrafts(nodes, date));
    var final := ApplyLines(nodes, lines);
    ResultDraftsOk(accounts, nodes, date);
    LinesOfCanonical(accounts, nodes, ResultDrafts(nodes, date));
    ApplyLinesDistinct(accounts, nodes, lines);
    var i :| 0 <= i < |final| && final[i] == n;
    NodeNet(final, i);
    ResultsMoveOnlyResult(accounts, nodes, date, Exactly(n.ref));
    NoneSelected(nodes, Exactly(n.ref));
    ResultsCancel(accounts, nodes);
  }

  /** Where no account has a net and no count is off the books, nothing patrimonial is drafted. */
  lemma NothingLeft(b: Books, req: Request)
    requires JournalOk(b) && ResultsVerdict(Adjusted(LoadNodes(b, req.closing), req)).None?
    requires !HasBalances(b, req)
    ensures PatrimonialLines(Final(LoadNodes(b, req.closing), req)) == []
  {
    var loaded := LoadNodes(b, req.closing);
    var final := Final(loaded, req);
    CountsAgree(b, req);
    LoadedBalanced(b, req.closing);
    LoadedDistinct(b, req.closing);
    LoadedAtZero(b, req.closing);
    forall n | n in final && Patrimonial()(n.ref) ensures n.debit == n.credit {
      StillAtZero(b.accounts, loaded, req.closing, n);
    }
    NothingToCancel(final, Credit, Patrimonial());
    NothingToCancel(final, Debit, Patrimonial());
  }

  /** A closing of sound books is planned exactly when its request is admitted, the balances fit, and some patrimonial
      account has a net or some count is off the books. */
  lemma PlannedIff(b: Books, req: Request)
    requires Inv(b)
    ensures BuildPlan(b, req).Ok? <==> Admitted(b, req) && BalancesFit(b, req) && HasBalances(b, req)
  {
    RequestGuardIff(b, req);
    PlanFromIff(b, req);
  }

  lemma PlanFromIff(b: Books, req: Request)
    requires JournalOk(b)
    ensures PlanFrom(LoadNodes(b, req.closing), req).Ok? <==> BalancesFit(b, req) && HasBalances(b, req)
  {
    var loaded := LoadNodes(b, req.closing);
    NaturalGuardIff(b, req);
    ResultErrors(b, req);
    SidesFit(b, req);
    if BalancesFit(b, req) {
      if HasBalances(b, req) {
        if PatrimonialLines(Final(loaded, req)) == [] {
          NothingDrafted(b, req);
        }
      } else {
        NothingLeft(b, req);
      }
    }
  }

  // Room for the support accounts.

  predicate HasRoom(accounts: seq<Account>, parent: Code) { exists k :: 1 <= k <= 99 && Free(accounts, parent, k) }

  /** The company has the account of a spec, or its colectiva can take it. */
  predicate Ensurable(accounts: seq<Account>, chart: set<Code>, s: Spec) {
    KeyOfSpec(s) in OwnedNames(accounts) || (s.parent in chart && HasRoom(accounts, s.parent))
  }

  lemma EnsureOneIff(accounts: seq<Account>, chart: set<Code>, spec: Spec)
    ensures EnsureOne(accounts, chart, spec).Ok? <==> Ensurable(accounts, chart, spec)
  {
    if HasRoom(accounts, spec.parent) {
      var k :| 1 <= k <= 99 && Free(accounts, spec.parent, k);
    }
  }

  /** Ensuring one account changes nothing for a spec of another colectiva. */
  lemma EnsurableElsewhere(accounts: seq<Account>, chart: set<Code>, spec: Spec, other: Spec)
    requires EnsureOne(accounts, chart, spec).Ok? && other.parent != spec.parent
    ensures Ensurable(EnsureOne(accounts, chart, spec).value.0, chart, other) <==> Ensurable(accounts, chart, other)
  {
    EnsureOneNames(accounts, chart, spec);
    var after := EnsureOne(accounts, chart, spec).value.0;
    forall k ensures Free(after, other.parent, k) <==> Free(accounts, other.parent, k) {
      assert forall a :: a in accounts ==> a in after;
    }
  }

  lemma {:induction false} EnsureEachIff(accounts: seq<Account>, chart: set<Code>, specs: seq<Spec>)
    requires forall i, j :: 0 <= i < j < |specs| ==> specs[i].parent != specs[j].parent
    ensures EnsureEach(accounts, chart, specs).Ok? <==> forall s :: s in specs ==> Ensurable(accounts, chart, s)
    ensures EnsureEach(accounts, chart, specs).Ok? ==>
              forall s: Spec :: (forall i :: 0 <= i < |specs| ==> specs[i].parent != s.parent) ==>
                (Ensurable(EnsureEach(accounts, chart, specs).value.0, chart, s) <==> Ensurable(accounts, chart, s))
  {
    if specs != [] {
      var n := |specs| - 1;
      assert specs == specs[..n] + [specs[n]];
      EnsureEachIff(accounts, chart, specs[..n]);
      if EnsureEach(accounts, chart, specs[..n]).Ok? {
        var before := EnsureEach(accounts, chart, specs[..n]).value.0;
        EnsureOneIff(before, chart, specs[n]);
        if EnsureOne(before, chart, specs[n]).Ok? {
          forall s: Spec | forall i :: 0 <= i < |specs| ==> specs[i].parent != s.parent
            ensures Ensurable(EnsureEach(accounts, chart, specs).value.0, chart, s) <==> Ensurable(accounts, chart, s)
          {
            EnsurableElsewhere(before, chart, specs[n], s);
          }
        }
      }
    }
  }

  /** Every support account exists, or its colectiva exists or is created by the closing and has a free code. */
  ghost predicate SupportRoom(b: Books) {
    forall s :: s in SUPPORT ==> Ensurable(b.accounts, b.chart + CLOSING_PARENTS, s)
  }

  lemma SupportIff(b: Books)
    ensures EnsureSupport(b).Ok? <==> SupportRoom(b)
  {
    SupportParentsDistinct();
    EnsureEachIff(b.accounts, b.chart + CLOSING_PARENTS, SUPPORT);
  }

  /** A closing of sound books goes through exactly when its request is admitted, the balances fit, something is left
      to close, and there is room for the support accounts. */
  lemma ClosingSucceeds(b: Books, req: Request)
    requires Inv(b)
    ensures Execute(b, req).Ok? <==>
              Admitted(b, req) && BalancesFit(b, req) && HasBalances(b, req) && SupportRoom(b)
  {
    PlannedIff(b, req);
    SupportIff(b);
    ExecuteFollowsPlan(b, req);
  }

  // The closing after a closing.

  lemma AllLines(entries: seq<Entry>, until: Date)
    requires forall e :: e in entries ==> e.date <= until
    ensures LinesIn(entries, UpTo(until)) == LinesIn(entries, Always())
  {
    SameLines(entries, UpTo(until), Always());
  }

  lemma AfterColectiva(b: Books, req: Request, support: Index, plan: Plan, after: Books, until: Date, parent: Code)
    requires Closes(b, req, support, plan, after) && parent.root <= 3
    requires forall e :: e in after.entries ==> e.date <= until
    ensures ColectivaAt(after, until, parent)
         == CountedNet(b, req, parent) - if parent == RESULT then plan.sheet.netResult else 0
  {
    hide Closes;
    ClosingMoves(b, req, support, plan, after, parent);
    AllLines(after.entries, until);
  }

  lemma OnlyInRoot(accounts: seq<Account>, id: AccountId)
    requires id < |accounts|
    ensures forall x: AccountId :: Only(id)(x) ==> InRoot(accounts, accounts[id].parent.root)(x)
  {
  }

  lemma AfterResults(b: Books, req: Request, support: Index, plan: Plan, after: Books, until: Date, id: AccountId)
    requires Closes(b, req, support, plan, after)
    requires id < |after.accounts| && (after.accounts[id].parent.root == 4 || after.accounts[id].parent.root == 5)
    requires forall e :: e in after.entries ==> e.date <= until
    ensures AccountAt(after, until, id) == 0
  {
    hide Closes;
    OnlyInRoot(after.accounts, id);
    ResultsStayClosed(b, req, support, plan, after, after.accounts[id].parent.root, Only(id));
    AllLines(after.entries, until);
  }

  /** A count on the natural side of its colectiva. */
  predicate CountsNatural(req: Request) {
    (req.cash.Some? ==> req.cash.value >= 0) && (req.inventory.Some? ==> req.inventory.value >= 0)
  }

  lemma NextNatural(b: Books, req: Request, support: Index, plan: Plan, after: Books, next: Request, parent: Code)
    requires Closes(b, req, support, plan, after) && Admitted(after, next)
    requires NaturalSide(parent, CountedNet(b, req, parent))
    ensures NaturalSide(parent, CountedNet(after, next, parent)) <==>
              if CountOf(next, parent).Some? then CountOf(next, parent).value >= 0
              else parent == RESULT ==> ColectivaAt(b, req.closing, RESULT) <= plan.sheet.netResult
  {
    if parent.root <= 3 {
      AfterColectiva(b, req, support, plan, after, next.closing, parent);
      ResultNotCounted(b, req);
    }
  }

  lemma NextNaturalIff(b: Books, req: Request, support: Index, plan: Plan, after: Books, next: Request)
    requires Closes(b, req, support, plan, after) && Admitted(after, next)
    requires forall parent :: NaturalSide(parent, CountedNet(b, req, parent))
    ensures (forall parent :: NaturalSide(parent, CountedNet(after, next, parent))) <==>
              ColectivaAt(b, req.closing, RESULT) <= plan.sheet.netResult && CountsNatural(next)
  {
    hide Closes, Admitted, NaturalSide, CountedNet, ColectivaAt;
    forall parent
      ensures NaturalSide(parent, CountedNet(after, next, parent)) <==>
                if CountOf(next, parent).Some? then CountOf(next, parent).value >= 0
                else parent == RESULT ==> ColectivaAt(b, req.closing, RESULT) <= plan.sheet.netResult
    {
      assert NaturalSide(parent, CountedNet(b, req, parent));
      NextNatural(b, req, support, plan, after, next, parent);
    }
    if forall parent :: NaturalSide(parent, CountedNet(after, next, parent)) {
      assert NaturalSide(RESULT, CountedNet(after, next, RESULT));
      assert NaturalSide(CASH, CountedNet(after, next, CASH));
      assert NaturalSide(INVENTORY, CountedNet(after, next, INVENTORY));
    }
  }

  lemma NextResultsFit(b: Books, req: Request, support: Index, plan: Plan, after: Books, next: Request)
    requires Closes(b, req, support, plan, after) && Admitted(after, next)
    ensures forall id: AccountId :: id < |after.accounts| ==>
              ResultSide(after.accounts[id].parent, AccountAt(after, next.closing, id))
  {
    forall id: AccountId | id < |after.accounts|
      ensures ResultSide(after.accounts[id].parent, AccountAt(after, next.closing, id))
    {
      if after.accounts[id].parent.root == 4 || after.accounts[id].parent.root == 5 {
        AfterResults(b, req, support, plan, after, next.closing, id);
      }
    }
  }

  /** The balances a closing leaves fit the next one exactly when its loss is no more than what the result of the
      exercise had in credit, and the next counts are not negative. */
  lemma NextFitsIff(b: Books, req: Request, support: Index, plan: Plan, after: Books, next: Request)
    requires Closes(b, req, support, plan, after) && BalancesFit(b, req) && Admitted(after, next)
    ensures BalancesFit(after, next) <==>
              ColectivaAt(b, req.closing, RESULT) <= plan.sheet.netResult && CountsNatural(next)
  {
    hide Closes, Admitted;
    NextNaturalIff(b, req, support, plan, after, next);
    NextResultsFit(b, req, support, plan, after, next);
  }

  /** A closing leaves every support account in place. */
  lemma RoomAfterClosing(after: Books, support: Index)
    requires SupportOk(after.accounts, support)
    ensures SupportRoom(after)
  {
    forall s | s in SUPPORT ensures KeyOfSpec(s) in OwnedNames(after.accounts) {
      OwnedNamesSound(after.accounts, KeyOfSpec(s));
      assert after.accounts[support[KeyOfSpec(s)]] in after.accounts;
    }
  }

  /** Exactly when one closing can follow another straight away. */
  lemma NextClosingIff(b: Books, req: Request, support: Index, plan: Plan, after: Books, next: Request)
    requires Inv(b) && BalancesFit(b, req) && Closes(b, req, support, plan, after) && Admitted(after, next)
    ensures Execute(after, next).Ok? <==>
              ColectivaAt(b, req.closing, RESULT) <= plan.sheet.netResult && CountsNatural(next) && HasBalances(after, next)
  {
    ClosedKeeps(b, req, support, plan, after);
    NextFitsIff(b, req, support, plan, after, next);
    RoomAfterClosing(after, support);
    ClosingSucceeds(after, next);
  }

  // Which error is raised.

  /** The error of a request while an exercise is open since `start`. */
  lemma OpenedErrors(b: Books, req: Request, start: Date)
    requires HasOpening(b.entries) && LogicalExercises(b).Ok? && InProgress(Current(LogicalExercises(b).value), start)
    requires RequestVerdict(b, req).None? <==> Admitted(b, req)
    ensures RequestVerdict(b, req)
         == if req.closing < start then Some(BeforeExerciseStart)
            else if Closed(b.closedUntil, req.closing) then Some(PeriodAlreadyClosed)
            else if req.reopening <= req.closing then Some(ReopeningNotLater)
            else if exists e :: e in b.entries && e.date > req.closing then Some(LaterEntriesExist)
            else None
  {
    hide LogicalExercises, Current;
  }

  lemma NotOpenedError(b: Books, req: Request)
    requires !HasOpening(b.entries)
    ensures RequestVerdict(b, req) == Some(NotOpened)
  {
  }

  /** The error of a request, in sound books. */
  lemma RequestErrors(b: Books, req: Request)
    requires Inv(b)
    ensures b.entries != [] ==> Boundaries(b.entries) != []
    ensures RequestVerdict(b, req)
         == if b.entries == [] then Some(NotOpened)
            else if req.closing < Boundaries(b.entries)[|Boundaries(b.entries)| - 1].date then Some(BeforeExerciseStart)
            else if Closed(b.closedUntil, req.closing) then Some(PeriodAlreadyClosed)
            else if req.reopening <= req.closing then Some(ReopeningNotLater)
            else if exists e :: e in b.entries && e.date > req.closing then Some(LaterEntriesExist)
            else None
  {
    hide *;
    SoundOpened(b);
    if b.entries == [] {
      NotOpenedError(b, req);
    } else {
      ExerciseInProgress(b);
      RequestGuardIff(b, req);
      OpenedErrors(b, req, Boundaries(b.entries)[|Boundaries(b.entries)| - 1].date);
    }
  }

  lemma WrongIff(nodes: seq<BalanceNode>, root: nat, side: Side)
    ensures (exists n :: n in nodes && WrongSide(nodes, n, root, side)) <==>
              exists parent: Code :: parent.root == root && Wrong(SumNet(nodes, Under(parent)), side)
  {
    if n :| n in nodes && WrongSide(nodes, n, root, side) {
      assert n.ref.parent.root == root && Wrong(SumNet(nodes, Under(n.ref.parent)), side);
    }
    if parent: Code :| parent.root == root && Wrong(SumNet(nodes, Under(parent)), side) {
      if forall n :: n in nodes ==> n.ref.parent != parent {
        NoNodeNoNet(nodes, parent);
      }
      var n :| n in nodes && n.ref.parent == parent;
      assert WrongSide(nodes, n, root, side);
    }
  }

  /** A net on the wrong side for a rubro whose accounts balance on the other. */
  predicate Wrong(net: int, side: Side) { if side == Debit then net < 0 else net > 0 }

  /** Some colectiva of a rubro is on the wrong side, at its count or in the journal. */
  ghost predicate RubroWrong(b: Books, req: Request, root: nat, side: Side) {
    exists parent: Code :: parent.root == root && Wrong(CountedNet(b, req, parent), side)
  }

  lemma RubroWrongIff(b: Books, req: Request, root: nat, side: Side)
    requires JournalOk(b) && 1 <= root <= 3
    ensures RubroWrong(b, req, root, side) <==>
              var adjusted := Adjusted(LoadNodes(b, req.closing), req);
              exists n :: n in adjusted && WrongSide(adjusted, n, root, side)
  {
    var adjusted := Adjusted(LoadNodes(b, req.closing), req);
    WrongIff(adjusted, root, side);
    forall parent: Code | parent.root == root
      ensures SumNet(adjusted, Under(parent)) == CountedNet(b, req, parent)
    {
      AdjustedIsCounted(b, req, parent);
    }
    hide Adjusted, LoadNodes, CountedNet, WrongSide, JournalOk;
    if RubroWrong(b, req, root, side) {
      var parent: Code :| parent.root == root && Wrong(CountedNet(b, req, parent), side);
      assert Wrong(SumNet(adjusted, Under(parent)), side);
    }
    if parent: Code :| parent.root == root && Wrong(SumNet(adjusted, Under(parent)), side) {
      assert Wrong(CountedNet(b, req, parent), side);
    }
  }

  /** The error of the guard of natural balances. */
  lemma NaturalErrors(b: Books, req: Request)
    requires JournalOk(b)
    ensures NaturalVerdict(Adjusted(LoadNodes(b, req.closing), req))
         == if RubroWrong(b, req, 1, Debit) then Some(AssetSide)
            else if RubroWrong(b, req, 2, Credit) then Some(LiabilitySide)
            else if RubroWrong(b, req, 3, Credit) then Some(EquitySide) else None
  {
    RubroWrongIff(b, req, 1, Debit);
    RubroWrongIff(b, req, 2, Credit);
    RubroWrongIff(b, req, 3, Credit);
    hide RubroWrong, JournalOk, LoadNodes, Adjusted, WrongSide;
  }

  /** The error of a plan that is turned down for its balances: assets come first, then liabilities, equity, the result
      accounts, and last that nothing is left to close. */
  lemma PlanErrors(b: Books, req: Request)
    requires JournalOk(b)
    ensures var r := PlanFrom(LoadNodes(b, req.closing), req);
            if RubroWrong(b, req, 1, Debit) then r == Err(AssetSide)
            else if RubroWrong(b, req, 2, Credit) then r == Err(LiabilitySide)
            else if RubroWrong(b, req, 3, Credit) then r == Err(EquitySide)
            else if !AccountSides(b, req.closing, 4) then r == Err(NegativeResultSide)
            else if !AccountSides(b, req.closing, 5) then r == Err(PositiveResultSide)
            else if !HasBalances(b, req) then r == Err(NothingToClose)
            else r.Ok?
  {
    NaturalErrors(b, req);
    ResultErrors(b, req);
    PlanFromIff(b, req);
    PlanVerdicts(LoadNodes(b, req.closing), req);
    SidesFit(b, req);
    hide *;
  }

  lemma PlanVerdicts(loaded: seq<BalanceNode>, req: Request)
    ensures var natural, results := NaturalVerdict(Adjusted(loaded, req)), ResultsVerdict(Adjusted(loaded, req));
            && (natural.Some? ==> PlanFrom(loaded, req) == Err(natural.value))
            && (natural.None? && results.Some? ==> PlanFrom(loaded, req) == Err(results.value))
            && (natural.None? && results.None? && PlanFrom(loaded, req).Err? ==> PlanFrom(loaded, req) == Err(NothingToClose))
  {
    hide NaturalVerdict, ResultsVerdict, Adjusted, Final, PatrimonialLines;
  }
}
