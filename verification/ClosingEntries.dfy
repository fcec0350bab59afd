/** Which accounts a closing books its count differences and its result on. */
module ClosingEntries {
  import opened Basics
  import opened Model
  import opened Turnovers
  import opened Journal
  import opened AccountResolution
  import opened Names
  import opened ClosingSupport
  import opened Balances
  import opened ClosingPlan
  import opened ClosingExecution
  import opened PlanProperties
  import opened ClosingTheorems
  import opened ClosingEffects

  /** The name of the account a closing uses in a colectiva. */
  function SupportName(c: Code): string {
    if c == Code(1, 1) then "Caja"
    else if c == Code(1, 9) then "Mercaderías"
    else if c == Code(3, 2) then "Resultado del Ejercicio"
    else if c == Code(4, 1) then "Costo de Mercaderías Vendidas"
    else if c == Code(4, 12) then "Faltante de Caja"
    else if c == Code(4, 13) then "Faltante de Mercaderías"
    else if c == Code(5, 6) then "Sobrante de Caja"
    else "Sobrante de Mercaderías"
  }

  /** What a difference of cash and one of inventory book on a colectiva: the asset takes the difference, a missing amount
      is a loss and an amount too many a gain, each on its own account. */
  function Booked(cash: int, inventory: int, c: Code): int {
    if c == Code(1, 1) then cash
    else if c == Code(4, 12) then Positive(-cash)
    else if c == Code(5, 6) then 0 - Positive(cash)
    else if c == Code(1, 9) then inventory
    else if c == Code(4, 13) then Positive(-inventory)
    else if c == Code(5, 7) then 0 - Positive(inventory)
    else 0
  }

  /** What the counts of a request differ from the journal by. */
  function CashDifference(b: Books, req: Request): int { Difference(req.cash, ColectivaAt(b, req.closing, Code(1, 1))) }
  function InventoryDifference(b: Books, req: Request): int {
    Difference(req.inventory, ColectivaAt(b, req.closing, Code(1, 9)))
  }

  // The drafts.

  lemma AdjustmentUnder(nodes: seq<BalanceNode>, date: Date, actual: Option<int>,
                        asset: AccountRef, surplus: AccountRef, shortage: AccountRef, c: Code)
    requires asset.parent != surplus.parent && asset.parent != shortage.parent && surplus.parent != shortage.parent
    ensures var difference := Difference(actual, SumNet(nodes, Under(asset.parent)));
            DraftNet(LinesOf(Adjustments(nodes, date, actual, asset, surplus, shortage)), Under(c))
            == if c == asset.parent then difference
               else if c == surplus.parent then 0 - Positive(difference)
               else if c == shortage.parent then Positive(-difference)
               else 0
    ensures forall l :: l in LinesOf(Adjustments(nodes, date, actual, asset, surplus, shortage)) ==>
              l.ref == asset || l.ref == surplus || l.ref == shortage
  {
    AdjustmentLines(nodes, date, actual, asset, surplus, shortage);
    if actual.Some? && actual.value != SumNet(nodes, Under(asset.parent)) {
      var (a, b) := Pair(actual.value - SumNet(nodes, Under(asset.parent)), asset, surplus, shortage);
      TwoLines(a, b, Under(c));
    }
  }

  lemma DraftsBook(accounts: seq<Account>, loaded: seq<BalanceNode>, req: Request, c: Code)
    requires Balanced(accounts, loaded)
    ensures DraftNet(LinesOf(AdjustmentDrafts(loaded, req)), Under(c))
         == Booked(Difference(req.cash, SumNet(loaded, Under(Code(1, 1)))),
                   Difference(req.inventory, SumNet(loaded, Under(Code(1, 9)))), c)
    ensures forall l :: l in LinesOf(AdjustmentDrafts(loaded, req)) ==>
              l.ref == VirtualRef(l.ref.parent, SupportName(l.ref.parent))
  {
    AdjustmentRefsOk();
    var cash := CashDrafts(loaded, req);
    var counted := ApplyLines(loaded, LinesOf(cash));
    var inventory := InventoryDrafts(counted, req);
    AdjustmentStage(accounts, loaded, req.closing, req.cash, CASH_REF, CASH_SURPLUS, CASH_SHORTAGE, INVENTORY);
    AdjustmentUnder(loaded, req.closing, req.cash, CASH_REF, CASH_SURPLUS, CASH_SHORTAGE, c);
    AdjustmentUnder(counted, req.closing, req.inventory, INVENTORY_REF, INVENTORY_SURPLUS, INVENTORY_SHORTAGE, c);
    LinesOfConcat(cash, inventory);
    DraftNetConcat(LinesOf(cash), LinesOf(inventory), Under(c));
    RefsNamed();
  }

  lemma RefsNamed()
    ensures forall r :: r == CASH_REF || r == CASH_SURPLUS || r == CASH_SHORTAGE || r == INVENTORY_REF
                        || r == INVENTORY_SURPLUS || r == INVENTORY_SHORTAGE || r == RESULT_REF ==>
              r == VirtualRef(r.parent, SupportName(r.parent))
  {
  }

  /** The adjustments of a plan book the difference of each count on its own accounts, by name, and nothing anywhere else. */
  lemma PlanBooksDifferences(b: Books, req: Request, c: Code)
    requires JournalOk(b) && BuildPlan(b, req).Ok?
    ensures var lines := LinesOf(BuildPlan(b, req).value.adjustments);
            && DraftNet(lines, Under(c)) == Booked(CashDifference(b, req), InventoryDifference(b, req), c)
            && forall l :: l in lines ==> l.ref == VirtualRef(l.ref.parent, SupportName(l.ref.parent))
  {
    LoadedBalanced(b, req.closing);
    DraftsBook(b.accounts, LoadNodes(b, req.closing), req, c);
    LoadedColectiva(b, req.closing, Code(1, 1));
    LoadedColectiva(b, req.closing, Code(1, 9));
  }

  lemma ResultLines(adjusted: seq<BalanceNode>, date: Date)
    ensures forall l :: l in LinesOf(ResultDrafts(adjusted, date)) ==>
              l.ref == RESULT_REF || (l.ref.parent.root == 4 && l.side == Credit) || (l.ref.parent.root == 5 && l.side == Debit)
  {
    CancellingLines(adjusted, Debit, Rooted(4));
    CancellingLines(adjusted, Credit, Rooted(5));
    LinesOfConcat(LossDrafts(adjusted, date), GainDrafts(adjusted, date));
    LinesOfOne(Draft(date, ResultClosing, LossLines(adjusted)));
    LinesOfOne(Draft(date, ResultClosing, GainLines(adjusted)));
  }

  /** The result closing of a plan books the net result on 3.02, by name, and touches no other patrimonial account: losses
      are credited away and gains debited away. */
  lemma PlanBooksResult(b: Books, req: Request)
    requires JournalOk(b) && BuildPlan(b, req).Ok?
    ensures var plan := BuildPlan(b, req).value;
            && DraftNet(LinesOf(plan.results), Under(Code(3, 2))) == -plan.sheet.netResult
            && forall l :: l in LinesOf(plan.results) ==>
                 || l.ref == VirtualRef(Code(3, 2), "Resultado del Ejercicio")
                 || (l.ref.parent.root == 4 && l.side == Credit) || (l.ref.parent.root == 5 && l.side == Debit)
  {
    var adjusted := Adjusted(LoadNodes(b, req.closing), req);
    ResultLines(adjusted, req.closing);
    ResultMoves(adjusted, req.closing, Under(Code(3, 2)));
    OtherRoot(adjusted, Debit, 4, Code(3, 2));
    OtherRoot(adjusted, Credit, 5, Code(3, 2));
  }

  // The posted entries.

  /** The entries a closing posts for its adjustments. */
  function AdjustmentEntries(b: Books, plan: Plan, after: Books): seq<Entry>
    requires |b.entries| + |plan.adjustments| <= |after.entries|
  {
    after.entries[|b.entries|..|b.entries| + |plan.adjustments|]
  }

  lemma AdjustmentEntriesAre(b: Books, support: Index, plan: Plan, after: Books)
    requires after.entries == b.entries + Posted(support, plan.Drafts(), LastNumber(b.entries))
    ensures |b.entries| + |plan.adjustments| <= |after.entries|
    ensures AdjustmentEntries(b, plan, after) == Posted(support, plan.adjustments, LastNumber(b.entries))
  {
    var rest := plan.results + [plan.patrimonial, plan.reopening];
    assert plan.Drafts() == plan.adjustments + rest;
    PostedSplit(support, plan.adjustments, rest, LastNumber(b.entries));
  }

  /** A support account, by colectiva and name. */
  ghost predicate Supports(accounts: seq<Account>, id: AccountId) {
    id < |accounts| && IsAccountOf(accounts, id, Spec(accounts[id].parent, SupportName(accounts[id].parent)))
  }

  lemma TargetNamed(accounts: seq<Account>, support: Index, r: AccountRef)
    requires SupportOk(accounts, support) && Canonical([], r) && r == VirtualRef(r.parent, SupportName(r.parent))
    ensures Supports(accounts, Target(support, r)) && accounts[Target(support, r)].parent == r.parent
  {
    var s :| s in SUPPORT && r == VirtualRef(s.parent, s.name);
    assert SupportKey(r) == KeyOfSpec(s);
    ServesIff(accounts, support[KeyOfSpec(s)], s);
  }

  lemma NamedNet(accounts: seq<Account>, support: Index, lines: seq<DraftLine>, c: Code)
    requires SupportOk(accounts, support) && Virtual(lines)
    requires forall l :: l in lines ==> l.ref == VirtualRef(l.ref.parent, SupportName(l.ref.parent))
    ensures forall side :: DraftSum(lines, side, Resolving(support, InColectiva(accounts, c))) == DraftSum(lines, side, Under(c))
  {
    forall l | l in lines ensures Resolving(support, InColectiva(accounts, c))(l.ref) == Under(c)(l.ref) {
      TargetNamed(accounts, support, l.ref);
    }
    forall side {
      SameDraftSum(lines, side, Resolving(support, InColectiva(accounts, c)), Under(c));
    }
  }

  lemma PostedSupports(accounts: seq<Account>, support: Index, drafts: seq<Draft>, last: nat, e: Entry, l: Line)
    requires SupportOk(accounts, support) && e in Posted(support, drafts, last) && l in e.lines
    requires forall d :: d in drafts ==> Virtual(d.lines)
    requires forall k :: k in LinesOf(drafts) ==> k.ref == VirtualRef(k.ref.parent, SupportName(k.ref.parent))
    ensures Supports(accounts, l.account)
  {
    var d := PostedEntry(support, drafts, last, e);
    var i :| 0 <= i < |Resolved(support, d.lines)| && Resolved(support, d.lines)[i] == l;
    InLinesOf(drafts, d, d.lines[i]);
    assert d.lines[i] in d.lines;
    TargetNamed(accounts, support, d.lines[i].ref);
  }

  lemma {:induction false} InLinesOf(drafts: seq<Draft>, d: Draft, l: DraftLine)
    requires d in drafts && l in d.lines
    ensures l in LinesOf(drafts)
  {
    var n := |drafts| - 1;
    if d != drafts[n] {
      assert drafts == drafts[..n] + [drafts[n]];
      InLinesOf(drafts[..n], d, l);
    }
  }

  lemma PlanAdjustments(b: Books, req: Request)
    requires JournalOk(b) && BuildPlan(b, req).Ok?
    ensures AdjustmentsOk(BuildPlan(b, req).value.adjustments, req.closing)
    ensures Virtual(LinesOf(BuildPlan(b, req).value.adjustments))
  {
    LoadedBalanced(b, req.closing);
    AdjustedBalance(b.accounts, LoadNodes(b, req.closing), req);
  }

  /** What a closing that is carried out posts for its counts: adjustment entries on the closing date, which net, on each
      colectiva, what the difference of the count books there, all of it on the accounts that bear the names. */
  lemma ClosingBooksDifferences(b: Books, req: Request, support: Index, plan: Plan, after: Books, c: Code)
    requires JournalOk(b) && BuildPlan(b, req) == Ok(plan) && Closes(b, req, support, plan, after)
    ensures |b.entries| + |plan.adjustments| <= |after.entries|
    ensures var entries := AdjustmentEntries(b, plan, after);
            && Net(LinesIn(entries, Always()), InColectiva(after.accounts, c))
               == Booked(CashDifference(b, req), InventoryDifference(b, req), c)
            && (forall e :: e in entries ==> e.source == Adjustment && e.date == req.closing)
            && (forall e, l :: e in entries && l in e.lines ==> Supports(after.accounts, l.account))
  {
    ClosedParts(b, req, support, plan, after);
    hide Closes, BuildPlan, JournalOk;
    PlanBooksDifferences(b, req, c);
    PlanAdjustments(b, req);
    AdjustmentEntriesAre(b, support, plan, after);
    PostedBooks(after.accounts, support, plan.adjustments, LastNumber(b.entries), req.closing, c);
  }

  lemma ClosedParts(b: Books, req: Request, support: Index, plan: Plan, after: Books)
    requires Closes(b, req, support, plan, after)
    ensures SupportOk(after.accounts, support)
    ensures after.entries == b.entries + Posted(support, plan.Drafts(), LastNumber(b.entries))
  {
  }

  lemma PostedBooks(accounts: seq<Account>, support: Index, drafts: seq<Draft>, last: nat, date: Date, c: Code)
    requires SupportOk(accounts, support) && AdjustmentsOk(drafts, date) && Virtual(LinesOf(drafts))
    requires forall k :: k in LinesOf(drafts) ==> k.ref == VirtualRef(k.ref.parent, SupportName(k.ref.parent))
    ensures var entries := Posted(support, drafts, last);
            && Net(LinesIn(entries, Always()), InColectiva(accounts, c)) == DraftNet(LinesOf(drafts), Under(c))
            && (forall e :: e in entries ==> e.source == Adjustment && e.date == date)
            && (forall e, l :: e in entries && l in e.lines ==> Supports(accounts, l.account))
  {
    var entries := Posted(support, drafts, last);
    PostedTurnover(support, drafts, last, Always(), Debit, InColectiva(accounts, c));
    PostedTurnover(support, drafts, last, Always(), Credit, InColectiva(accounts, c));
    NamedNet(accounts, support, LinesOf(drafts), c);
    forall e | e in entries ensures e.source == Adjustment && e.date == date {
      var d := PostedEntry(support, drafts, last, e);
    }
    forall e, l | e in entries && l in e.lines ensures Supports(accounts, l.account) {
      PostedSupports(accounts, support, drafts, last, e, l);
    }
  }

  function OneIf(d: int): nat { if d == 0 then 0 else 1 }

  /** What an entry of a closing is, by its place among the entries the closing posts. */
  ghost predicate PlacedAs(req: Request, adjustments: nat, results: nat, i: nat, e: Entry) {
    && e.reversalOf.None?
    && (if i < adjustments then e.source == Adjustment && e.date == req.closing
        else if i < adjustments + results then e.source == ResultClosing && e.date == req.closing
        else if i == adjustments + results then e.source == PatrimonialClosing && e.date == req.closing
        else e.source == Reopening && e.date == req.reopening)
  }

  lemma OneAdjustment(nodes: seq<BalanceNode>, date: Date, actual: Option<int>,
                      asset: AccountRef, surplus: AccountRef, shortage: AccountRef)
    ensures |Adjustments(nodes, date, actual, asset, surplus, shortage)|
         == OneIf(Difference(actual, SumNet(nodes, Under(asset.parent))))
  {
    hide SumNet;
  }

  lemma AdjustmentCount(b: Books, req: Request)
    requires JournalOk(b)
    ensures |AdjustmentDrafts(LoadNodes(b, req.closing), req)|
         == OneIf(CashDifference(b, req)) + OneIf(InventoryDifference(b, req))
  {
    var loaded := LoadNodes(b, req.closing);
    LoadedBalanced(b, req.closing);
    LoadedColectiva(b, req.closing, Code(1, 1));
    LoadedColectiva(b, req.closing, Code(1, 9));
    hide LoadNodes, JournalOk, ColectivaAt;
    DraftCount(b.accounts, loaded, req);
  }

  lemma DraftCount(accounts: seq<Account>, loaded: seq<BalanceNode>, req: Request)
    requires Balanced(accounts, loaded)
    ensures |AdjustmentDrafts(loaded, req)|
         == OneIf(Difference(req.cash, SumNet(loaded, Under(Code(1, 1)))))
            + OneIf(Difference(req.inventory, SumNet(loaded, Under(Code(1, 9)))))
  {
    AdjustmentRefsOk();
    AdjustmentStage(accounts, loaded, req.closing, req.cash, CASH_REF, CASH_SURPLUS, CASH_SHORTAGE, INVENTORY);
    OneAdjustment(loaded, req.closing, req.cash, CASH_REF, CASH_SURPLUS, CASH_SHORTAGE);
    var counted := ApplyLines(loaded, LinesOf(CashDrafts(loaded, req)));
    OneAdjustment(counted, req.closing, req.inventory, INVENTORY_REF, INVENTORY_SURPLUS, INVENTORY_SHORTAGE);
    hide SumNet, Adjustments, ApplyLines, Balanced, OneIf, Difference;
  }

  /** What the drafts of a plan are dated and typed. */
  ghost predicate DraftsTyped(plan: Plan, req: Request) {
    && (forall d :: d in plan.adjustments ==> d.source == Adjustment && d.date == req.closing)
    && (forall d :: d in plan.results ==> d.source == ResultClosing && d.date == req.closing)
    && plan.patrimonial.source == PatrimonialClosing && plan.patrimonial.date == req.closing
    && plan.reopening.source == Reopening && plan.reopening.date == req.reopening
  }

  lemma PlanTyped(b: Books, req: Request, plan: Plan)
    requires JournalOk(b) && PlanOf(LoadNodes(b, req.closing), req, plan)
    ensures DraftsTyped(plan, req) && |plan.results| <= 2
  {
    var loaded := LoadNodes(b, req.closing);
    LoadedBalanced(b, req.closing);
    hide *;
    PlanParts(loaded, req, plan);
    TypedDrafts(b.accounts, loaded, req);
    TypedParts(loaded, req, plan);
  }

  lemma PlanParts(loaded: seq<BalanceNode>, req: Request, plan: Plan)
    requires PlanOf(loaded, req, plan)
    ensures plan.adjustments == AdjustmentDrafts(loaded, req)
    ensures plan.results == ResultDrafts(Adjusted(loaded, req), req.closing) && |plan.results| <= 2
    ensures plan.patrimonial.source == PatrimonialClosing && plan.patrimonial.date == req.closing
    ensures plan.reopening.source == Reopening && plan.reopening.date == req.reopening
    ensures plan.reopening.lines == Mirror(plan.patrimonial.lines)
  {
    hide Adjusted, AdjustmentDrafts, Final, PatrimonialLines, Cancelling, Mirror, SumBalance, SheetOf, SnapshotLines,
      ResultsVerdict;
  }

  lemma TypedParts(loaded: seq<BalanceNode>, req: Request, plan: Plan)
    requires plan.adjustments == AdjustmentDrafts(loaded, req)
    requires plan.results == ResultDrafts(Adjusted(loaded, req), req.closing)
    requires plan.patrimonial.source == PatrimonialClosing && plan.patrimonial.date == req.closing
    requires plan.reopening.source == Reopening && plan.reopening.date == req.reopening
    requires forall d :: d in AdjustmentDrafts(loaded, req) ==> d.source == Adjustment && d.date == req.closing
    requires forall d :: d in ResultDrafts(Adjusted(loaded, req), req.closing) ==>
               d.source == ResultClosing && d.date == req.closing
    ensures DraftsTyped(plan, req)
  {
    hide Adjusted, AdjustmentDrafts, ResultDrafts;
  }

  lemma TypedDrafts(accounts: seq<Account>, loaded: seq<BalanceNode>, req: Request)
    requires Balanced(accounts, loaded)
    ensures forall d :: d in AdjustmentDrafts(loaded, req) ==> d.source == Adjustment && d.date == req.closing
    ensures forall d :: d in ResultDrafts(Adjusted(loaded, req), req.closing) ==>
              d.source == ResultClosing && d.date == req.closing
  {
    AdjustedBalance(accounts, loaded, req);
    ResultDraftsOk(accounts, Adjusted(loaded, req), req.closing);
    hide Adjusted, AdjustmentDrafts, ResultDrafts, Balanced;
  }

  lemma PlanInOrder(b: Books, req: Request, plan: Plan, i: nat)
    requires JournalOk(b) && PlanOf(LoadNodes(b, req.closing), req, plan) && i < |plan.Drafts()|
    ensures var d := plan.Drafts()[i];
            PlacedAs(req, |plan.adjustments|, |plan.results|, i, Entry(0, d.date, d.source, [], None))
    ensures |plan.results| <= 2
  {
    hide PlanOf, LoadNodes, JournalOk;
    PlanTyped(b, req, plan);
    var d := plan.Drafts()[i];
    if i < |plan.adjustments| {
      assert d == plan.adjustments[i] && d in plan.adjustments;
    } else if i < |plan.adjustments| + |plan.results| {
      assert d == plan.results[i - |plan.adjustments|] && d in plan.results;
    }
  }

  lemma PostedInOrder(b: Books, req: Request, support: Index, plan: Plan, last: nat, i: nat)
    requires JournalOk(b) && PlanOf(LoadNodes(b, req.closing), req, plan) && i < |plan.Drafts()|
    ensures var e := Posted(support, plan.Drafts(), last)[i];
            PlacedAs(req, |plan.adjustments|, |plan.results|, i, e) && e.number == last + 1 + i
  {
    hide PlanOf, JournalOk, LoadNodes, Resolved;
    PlanInOrder(b, req, plan, i);
  }

  lemma ResolvedMirror(support: Index, lines: seq<DraftLine>)
    ensures Resolved(support, Mirror(lines)) == Swapped(Resolved(support, lines))
  {
  }

  lemma PostedEnd(b: Books, req: Request, support: Index, plan: Plan, last: nat)
    requires JournalOk(b) && PlanOf(LoadNodes(b, req.closing), req, plan)
    ensures var posted, k := Posted(support, plan.Drafts(), last), |plan.adjustments| + |plan.results|;
            && |posted| == k + 2 && |plan.results| <= 2
            && |plan.adjustments| == OneIf(CashDifference(b, req)) + OneIf(InventoryDifference(b, req))
            && posted[k + 1].lines == Swapped(posted[k].lines)
  {
    hide *;
    AdjustmentCount(b, req);
    PlanParts(LoadNodes(b, req.closing), req, plan);
    PostedLast(support, plan, last);
  }

  lemma PostedLast(support: Index, plan: Plan, last: nat)
    requires plan.reopening.lines == Mirror(plan.patrimonial.lines)
    ensures var posted, k := Posted(support, plan.Drafts(), last), |plan.adjustments| + |plan.results|;
            |posted| == k + 2 && posted[k + 1].lines == Swapped(posted[k].lines)
  {
    hide Mirror, Resolved, Swapped;
    var k := |plan.adjustments| + |plan.results|;
    assert plan.Drafts()[k] == plan.patrimonial && plan.Drafts()[k + 1] == plan.reopening;
    ResolvedMirror(support, plan.patrimonial.lines);
  }

  lemma PlanOfClosing(b: Books, req: Request, support: Index, plan: Plan, after: Books)
    requires Closes(b, req, support, plan, after)
    ensures JournalOk(b) && PlanOf(LoadNodes(b, req.closing), req, plan)
  {
  }

  /** Entries that stand after some others, each as the entry of a closing that its place makes it. */
  ghost predicate InPlace(before: seq<Entry>, posted: seq<Entry>, last: nat, req: Request, adjustments: nat, results: nat) {
    forall i :: |before| <= i < |before| + |posted| ==>
      var e := (before + posted)[i];
      PlacedAs(req, adjustments, results, i - |before|, e) && e.number == last + 1 + i - |before|
  }

  lemma AllInPlace(b: Books, req: Request, support: Index, plan: Plan)
    requires JournalOk(b) && PlanOf(LoadNodes(b, req.closing), req, plan)
    ensures var last := LastNumber(b.entries);
            InPlace(b.entries, Posted(support, plan.Drafts(), last), last, req, |plan.adjustments|, |plan.results|)
  {
    hide PlanOf, JournalOk, LoadNodes, PlacedAs, LastNumber;
    var last := LastNumber(b.entries);
    var posted := Posted(support, plan.Drafts(), last);
    forall i | |b.entries| <= i < |b.entries| + |posted|
      ensures var e := (b.entries + posted)[i];
              PlacedAs(req, |plan.adjustments|, |plan.results|, i - |b.entries|, e) && e.number == last + 1 + i - |b.entries|
    {
      PostedInOrder(b, req, support, plan, last, i - |b.entries|);
      assert (b.entries + posted)[i] == posted[i - |b.entries|];
    }
  }

  /** What a closing posts: one adjustment for each count that differs, then at most two result entries, the patrimonial
      closing and the reopening, in this order and numbered on, all on the closing date but the last, which has the lines
      of the patrimonial closing with the sides exchanged. */
  lemma ClosingPosts(b: Books, req: Request, support: Index, plan: Plan, after: Books)
    requires Closes(b, req, support, plan, after)
    ensures b.entries <= after.entries
    ensures var posted, adjustments, results := after.entries[|b.entries|..], |plan.adjustments|, |plan.results|;
            && |posted| == adjustments + results + 2
            && adjustments == OneIf(CashDifference(b, req)) + OneIf(InventoryDifference(b, req)) && results <= 2
            && InPlace(b.entries, posted, LastNumber(b.entries), req, adjustments, results)
            && posted[|posted| - 1].lines == Swapped(posted[|posted| - 2].lines)
  {
    ClosedParts(b, req, support, plan, after);
    PlanOfClosing(b, req, support, plan, after);
    hide *;
    PostedEnd(b, req, support, plan, LastNumber(b.entries));
    AllInPlace(b, req, support, plan);
    assert after.entries[|b.entries|..] == Posted(support, plan.Drafts(), LastNumber(b.entries));
  }

  // The order of the lines.

  /** Debits come before credits. */
  predicate DebitsFirst(lines: seq<Line>) {
    forall i, j :: 0 <= i < j < |lines| && lines[i].side == Credit ==> lines[j].side == Credit
  }

  predicate DraftDebitsFirst(lines: seq<DraftLine>) {
    forall i, j :: 0 <= i < j < |lines| && lines[i].side == Credit ==> lines[j].side == Credit
  }

  lemma SidesJoined(debits: seq<DraftLine>, credits: seq<DraftLine>)
    requires forall l :: l in debits ==> l.side == Debit
    requires forall l :: l in credits ==> l.side == Credit
    ensures DraftDebitsFirst(debits + credits)
  {
    assert forall i :: 0 <= i < |debits| ==> debits[i].side == Debit;
  }

  lemma ClosingDebitsFirst(nodes: seq<BalanceNode>, date: Date)
    ensures DraftDebitsFirst(PatrimonialLines(nodes))
    ensures forall d :: d in ResultDrafts(nodes, date) ==> DraftDebitsFirst(d.lines)
  {
    CancellingLines(nodes, Credit, Patrimonial());
    CancellingLines(nodes, Debit, Patrimonial());
    SidesJoined(Cancelling(nodes, Credit, Patrimonial()), Cancelling(nodes, Debit, Patrimonial()));
    CancellingLines(nodes, Debit, Rooted(4));
    SidesJoined([DraftLine(RESULT_REF, Debit, SumBalance(nodes, Debit, Rooted(4)))], Cancelling(nodes, Debit, Rooted(4)));
    CancellingLines(nodes, Credit, Rooted(5));
    SidesJoined(Cancelling(nodes, Credit, Rooted(5)), [DraftLine(RESULT_REF, Credit, SumBalance(nodes, Credit, Rooted(5)))]);
  }

  lemma AdjustmentDebitsFirst(loaded: seq<BalanceNode>, req: Request)
    ensures forall d :: d in AdjustmentDrafts(loaded, req) ==> DraftDebitsFirst(d.lines)
  {
  }

  /** Every entry of a closing but the reopening has its debits before its credits. */
  lemma ClosingDebitsBeforeCredits(b: Books, req: Request, support: Index, plan: Plan, after: Books)
    requires Closes(b, req, support, plan, after)
    ensures forall i :: |b.entries| <= i < |after.entries| - 1 ==> DebitsFirst(after.entries[i].lines)
  {
    hide *;
    ClosedParts(b, req, support, plan, after);
    PlanOfClosing(b, req, support, plan, after);
    PlanDebitsFirst(LoadNodes(b, req.closing), req, plan);
    AllDebitsFirst(b.entries, support, plan, LastNumber(b.entries));
  }

  lemma AllDebitsFirst(before: seq<Entry>, support: Index, plan: Plan, last: nat)
    requires forall d :: d in plan.adjustments || d in plan.results || d == plan.patrimonial ==> DraftDebitsFirst(d.lines)
    ensures var after := before + Posted(support, plan.Drafts(), last);
            forall i :: |before| <= i < |after| - 1 ==> DebitsFirst(after[i].lines)
  {
    hide *;
    PostedLength(support, plan, last);
    var after := before + Posted(support, plan.Drafts(), last);
    forall i | |before| <= i < |after| - 1 ensures DebitsFirst(after[i].lines) {
      PostedDebitsFirst(support, plan, last, i - |before|);
    }
  }

  lemma PostedLength(support: Index, plan: Plan, last: nat)
    ensures |Posted(support, plan.Drafts(), last)| == |plan.Drafts()|
  {
  }

  lemma PlanDebitsFirst(loaded: seq<BalanceNode>, req: Request, plan: Plan)
    requires PlanOf(loaded, req, plan)
    ensures forall d :: d in plan.adjustments || d in plan.results || d == plan.patrimonial ==> DraftDebitsFirst(d.lines)
  {
    AdjustmentDebitsFirst(loaded, req);
    ClosingDebitsFirst(Adjusted(loaded, req), req.closing);
    ClosingDebitsFirst(Final(loaded, req), req.closing);
    hide Adjusted, Final, PatrimonialLines, ResultDrafts, AdjustmentDrafts, DraftDebitsFirst;
  }

  lemma PostedDebitsFirst(support: Index, plan: Plan, last: nat, i: nat)
    requires i + 1 < |plan.Drafts()|
    requires forall d :: d in plan.adjustments || d in plan.results || d == plan.patrimonial ==> DraftDebitsFirst(d.lines)
    ensures i < |Posted(support, plan.Drafts(), last)|
    ensures DebitsFirst(Posted(support, plan.Drafts(), last)[i].lines)
  {
    var d := plan.Drafts()[i];
    assert d in plan.adjustments || d in plan.results || d == plan.patrimonial;
    var lines := Resolved(support, d.lines);
    forall k, l | 0 <= k < l < |lines| && lines[k].side == Credit ensures lines[l].side == Credit {
      assert d.lines[k].side == Credit;
    }
  }

  // The support accounts.

  const SUPPORT_CODES: set<Code> :=
    {Code(1, 1), Code(1, 9), Code(3, 2), Code(4, 1), Code(4, 12), Code(4, 13), Code(5, 6), Code(5, 7)}

  /** `a` is an account the company did not have under its name, created for one of some specs. */
  ghost predicate CreatedFor(accounts: seq<Account>, specs: seq<Spec>, a: Account) {
    exists s :: s in specs && KeyOfSpec(s) !in OwnedNames(accounts)
                && a == Account(s.parent, a.suffix, s.name, 2, true, ThisCompany)
  }

  lemma OwnedStays(before: seq<Account>, after: seq<Account>, key: NameKey)
    requires before <= after && key in OwnedNames(before)
    ensures key in OwnedNames(after)
  {
    OwnedNamesSound(before, key);
    OwnedNamesSound(after, key);
    assert before[OwnedNames(before)[key]] in after;
  }

  lemma {:induction false} EnsureCreates(accounts: seq<Account>, chart: set<Code>, specs: seq<Spec>)
    requires EnsureEach(accounts, chart, specs).Ok?
    ensures var after := EnsureEach(accounts, chart, specs).value.0;
            accounts <= after && forall id :: |accounts| <= id < |after| ==> CreatedFor(accounts, specs, after[id])
  {
    if specs != [] {
      var n := |specs| - 1;
      var before := EnsureEach(accounts, chart, specs[..n]).value.0;
      EnsureCreates(accounts, chart, specs[..n]);
      var after := EnsureOne(before, chart, specs[n]).value.0;
      forall id | |accounts| <= id < |after| ensures CreatedFor(accounts, specs, after[id]) {
        if id < |before| {
          var s :| s in specs[..n] && KeyOfSpec(s) !in OwnedNames(accounts)
                   && before[id] == Account(s.parent, before[id].suffix, s.name, 2, true, ThisCompany);
          assert s in specs;
        } else if KeyOfSpec(specs[n]) in OwnedNames(accounts) {
          OwnedStays(accounts, before, KeyOfSpec(specs[n]));
        }
      }
    }
  }

  /** The company has an account of a colectiva by a name. */
  ghost predicate HasAccount(accounts: seq<Account>, parent: Code, name: string) {
    exists id: AccountId :: IsAccountOf(accounts, id, Spec(parent, name))
  }

  lemma SupportIs()
    ensures forall i :: 0 <= i < |SUPPORT| ==>
              SUPPORT[i].parent in SUPPORT_CODES && SUPPORT[i].name == SupportName(SUPPORT[i].parent)
    ensures forall c :: c in SUPPORT_CODES ==> exists i :: 0 <= i < |SUPPORT| && SUPPORT[i].parent == c
  {
    assert SUPPORT[0].parent == Code(1, 1) && SUPPORT[1].parent == Code(1, 9) && SUPPORT[2].parent == Code(3, 2);
    assert SUPPORT[3].parent == Code(4, 1) && SUPPORT[4].parent == Code(4, 12) && SUPPORT[5].parent == Code(4, 13);
    assert SUPPORT[6].parent == Code(5, 6) && SUPPORT[7].parent == Code(5, 7);
  }

  lemma LackedName(accounts: seq<Account>, s: Spec)
    requires TableOk(accounts) && KeyOfSpec(s) !in OwnedNames(accounts)
    ensures !HasAccount(accounts, s.parent, s.name)
  {
    OwnedNamesSound(accounts, KeyOfSpec(s));
    if id: AccountId :| IsAccountOf(accounts, id, Spec(s.parent, s.name)) {
      VariantsIff(accounts[id].name, s.name);
    }
  }

  /** After the support accounts have been ensured the company has an account of each of the eight names, in a chart that
      has their colectivas; rows that were there stay as they were, and a new one bears a name the company lacked. */
  lemma SupportNamed(b: Books)
    requires EnsureSupport(b).Ok? && TableOk(b.accounts)
    ensures var after := EnsureSupport(b).value.0;
            && after == b.(accounts := after.accounts, chart := after.chart) && b.accounts <= after.accounts
            && after.chart == b.chart + {Code(3, 2), Code(4, 1), Code(4, 12), Code(4, 13), Code(5, 6), Code(5, 7)}
            && (forall c :: c in SUPPORT_CODES ==> HasAccount(after.accounts, c, SupportName(c)))
            && forall id :: |b.accounts| <= id < |after.accounts| ==>
                 var a := after.accounts[id];
                 && a == Account(a.parent, a.suffix, SupportName(a.parent), 2, true, ThisCompany)
                 && a.parent in SUPPORT_CODES && !HasAccount(b.accounts, a.parent, a.name)
  {
    SupportReady(b);
    EnsureCreates(b.accounts, b.chart + CLOSING_PARENTS, SUPPORT);
    SupportIs();
    var (after, support) := EnsureSupport(b).value;
    hide HasAccount, EnsureEach, TableOk;
    forall c | c in SUPPORT_CODES ensures HasAccount(after.accounts, c, SupportName(c)) {
      var i :| 0 <= i < |SUPPORT| && SUPPORT[i].parent == c;
      SupportFound(after.accounts, support, SUPPORT[i]);
    }
    forall id | |b.accounts| <= id < |after.accounts|
      ensures var a := after.accounts[id];
              && a == Account(a.parent, a.suffix, SupportName(a.parent), 2, true, ThisCompany)
              && a.parent in SUPPORT_CODES && !HasAccount(b.accounts, a.parent, a.name)
    {
      var s :| s in SUPPORT && KeyOfSpec(s) !in OwnedNames(b.accounts)
               && after.accounts[id] == Account(s.parent, after.accounts[id].suffix, s.name, 2, true, ThisCompany);
      LackedName(b.accounts, s);
    }
  }

  lemma SupportFound(accounts: seq<Account>, support: Index, s: Spec)
    requires SupportOk(accounts, support) && s in SUPPORT
    ensures HasAccount(accounts, s.parent, s.name)
  {
    ServesIff(accounts, support[KeyOfSpec(s)], s);
    assert IsAccountOf(accounts, support[KeyOfSpec(s)], Spec(s.parent, s.name));
  }
}
