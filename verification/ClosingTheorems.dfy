/** What executing a plan does to the books. */
module ClosingTheorems {
  import opened Basics
  import opened Model
  import opened Turnovers
  import opened Journal
  import opened AccountResolution
  import opened ClosingSupport
  import opened Balances
  import opened ClosingPlan
  import opened ClosingExecution
  import opened PlanProperties

  /** The account table is sound and every entry of the journal is a postable asiento. */
  ghost predicate JournalOk(b: Books) {
    TableOk(b.accounts) && forall e :: e in b.entries ==> Postable(b.accounts, e.lines)
  }

  lemma PostableGrows(before: seq<Account>, after: seq<Account>, lines: seq<Line>)
    requires Grows(before, after) && Postable(before, lines)
    ensures Postable(after, lines)
  {
    forall l | l in lines ensures LineOk(after, l) {
      assert LineOk(before, l);
    }
  }

  lemma {:induction false} SameTurnover(lines: seq<Line>, side: Side, sel: AccountId -> bool, sel': AccountId -> bool)
    requires forall l :: l in lines ==> sel(l.account) == sel'(l.account)
    ensures Turnover(lines, side, sel) == Turnover(lines, side, sel')
  {
    if lines != [] {
      assert lines[0] in lines;
      assert forall l :: l in lines[1..] ==> l in lines;
      SameTurnover(lines[1..], side, sel, sel');
    }
  }

  lemma LinesOwned(b: Books, w: Window)
    requires JournalOk(b)
    ensures forall l :: l in LinesIn(b.entries, w) ==> LineOk(b.accounts, l)
  {
    forall l | l in LinesIn(b.entries, w) ensures LineOk(b.accounts, l) {
      LineOfEntry(b.entries, w, l);
      var e :| e in b.entries && w.Has(e.date) && l in e.lines;
    }
  }

  /** The nodes loaded from a sound journal balance as a whole. */
  lemma LoadedBalanced(b: Books, until: Date)
    requires JournalOk(b)
    ensures Balanced(b.accounts, LoadNodes(b, until))
  {
    var lines := LinesIn(b.entries, UpTo(until));
    LinesOwned(b, UpTo(until));
    NodesForCanonical(ByCode(b.accounts), b.accounts, lines);
    EntriesBalance(b.entries, UpTo(until));
    forall side ensures Sum(LoadNodes(b, until), side, AnyRef()) == Turnover(lines, side, Everything()) {
      LoadedSums(b, until, side, AnyRef());
      SameTurnover(lines, side, Seen(b.accounts, AnyRef()), Everything());
    }
  }

  // Resolution of draft lines.

  /** Every support account is in the index, as a movement account of the company. */
  ghost predicate SupportOk(accounts: seq<Account>, support: Index) {
    forall s :: s in SUPPORT ==>
      KeyOfSpec(s) in support && Serves(accounts, support[KeyOfSpec(s)], KeyOfSpec(s))
  }

  lemma SupportReady(b: Books)
    requires EnsureSupport(b).Ok? && TableOk(b.accounts)
    ensures var (ready, support) := EnsureSupport(b).value;
            && SupportOk(ready.accounts, support) && TableOk(ready.accounts)
            && b.accounts <= ready.accounts && Grows(b.accounts, ready.accounts)
            && ready == b.(accounts := ready.accounts, chart := b.chart + CLOSING_PARENTS)
  {
    SupportInRubro();
    EnsureServes(b.accounts, b.chart + CLOSING_PARENTS, SUPPORT);
  }

  /** The references whose postings a selection of accounts sees. */
  function Resolving(support: Index, sel: AccountId -> bool): Selection {
    (r: AccountRef) => sel(Target(support, r))
  }

  /** Resolved lines carry, for any selection of accounts, what the draft carries for what resolves into it. */
  lemma {:induction false} ResolvedTurnover(support: Index, lines: seq<DraftLine>, side: Side, sel: AccountId -> bool)
    ensures Turnover(Resolved(support, lines), side, sel) == DraftSum(lines, side, Resolving(support, sel))
  {
    if lines != [] {
      var n := |lines| - 1;
      var last := Line(Target(support, lines[n].ref), lines[n].side, lines[n].amount);
      ResolvedTurnover(support, lines[..n], side, sel);
      assert Resolved(support, lines) == Resolved(support, lines[..n]) + [last];
      TurnoverConcat(Resolved(support, lines[..n]), [last], side, sel);
      assert [last][1..] == [];
    }
  }

  lemma ResolvedLineOk(accounts: seq<Account>, after: seq<Account>, support: Index, l: DraftLine)
    requires TableOk(accounts) && Grows(accounts, after) && SupportOk(after, support)
    requires Canonical(accounts, l.ref) && l.amount > 0
    ensures Resolvable(support, l) && LineOk(after, Line(Target(support, l.ref), l.side, l.amount))
  {
    if l.ref.id.None? {
      var s :| s in SUPPORT && l.ref == VirtualRef(s.parent, s.name);
      assert SupportKey(l.ref) == KeyOfSpec(s);
    }
  }

  lemma ResolvedHasSide(support: Index, lines: seq<DraftLine>, side: Side)
    requires exists l :: l in lines && l.side == side
    ensures exists r :: r in Resolved(support, lines) && r.side == side
  {
    var l :| l in lines && l.side == side;
    var i :| 0 <= i < |lines| && lines[i] == l;
    assert Resolved(support, lines)[i] in Resolved(support, lines);
  }

  lemma ResolvedNet(support: Index, lines: seq<DraftLine>)
    ensures Net(Resolved(support, lines), Everything()) == DraftNet(lines, AnyRef())
  {
    forall side ensures Turnover(Resolved(support, lines), side, Everything()) == DraftSum(lines, side, AnyRef()) {
      ResolvedTurnover(support, lines, side, Everything());
      SameDraftSum(lines, side, Resolving(support, Everything()), AnyRef());
    }
  }

  /** A sound draft resolves, and resolves to a postable asiento. */
  lemma ResolvedPostable(accounts: seq<Account>, after: seq<Account>, support: Index, nodes: seq<BalanceNode>,
                         lines: seq<DraftLine>)
    requires TableOk(accounts) && Grows(accounts, after) && SupportOk(after, support)
    requires DraftOk(lines) && CanonicalLines(accounts, nodes, lines)
    ensures ResolveLines(support, lines) == Ok(Resolved(support, lines))
    ensures Postable(after, Resolved(support, lines))
  {
    forall l | l in lines
      ensures Resolvable(support, l) && LineOk(after, Line(Target(support, l.ref), l.side, l.amount))
    {
      ResolvedLineOk(accounts, after, support, l);
    }
    var resolved := Resolved(support, lines);
    forall r | r in resolved ensures LineOk(after, r) {
      var i :| 0 <= i < |resolved| && resolved[i] == r;
      assert lines[i] in lines;
    }
    ResolvedHasSide(support, lines, Debit);
    ResolvedHasSide(support, lines, Credit);
    ResolvedNet(support, lines);
  }

  lemma {:induction false} SameDraftSum(lines: seq<DraftLine>, side: Side, p: Selection, q: Selection)
    requires forall l :: l in lines ==> p(l.ref) == q(l.ref)
    ensures DraftSum(lines, side, p) == DraftSum(lines, side, q)
  {
    if lines != [] {
      var n := |lines| - 1;
      assert lines == lines[..n] + [lines[n]];
      SameDraftSum(lines[..n], side, p, q);
    }
  }

  // Posting the drafts.

  /** The entries that drafts become. */
  function Posted(support: Index, drafts: seq<Draft>, last: nat): seq<Entry> {
    seq(|drafts|, i requires 0 <= i < |drafts| =>
      Entry(last + 1 + i, drafts[i].date, drafts[i].source, Resolved(support, drafts[i].lines), None))
  }

  /** A draft that `create_journal_entry` accepts in these books. */
  ghost predicate Fits(accounts: seq<Account>, closedUntil: Option<Date>, support: Index, d: Draft) {
    && d.source != Opening && !Closed(closedUntil, d.date)
    && ResolveLines(support, d.lines) == Ok(Resolved(support, d.lines))
    && LinesVerdict(accounts, Resolved(support, d.lines)).None?
  }

  lemma FittingDraftPosts(b: Books, support: Index, d: Draft)
    requires HasOpening(b.entries) && Fits(b.accounts, b.closedUntil, support, d)
    ensures PostDraft(b, support, d) == Ok(Append(b, d.date, d.source, Resolved(support, d.lines), None))
  {
  }

  /** The entry the last of some drafts becomes. */
  function LastPosted(support: Index, drafts: seq<Draft>, last: nat): Entry
    requires drafts != []
  {
    var d := drafts[|drafts| - 1];
    Entry(last + |drafts|, d.date, d.source, Resolved(support, d.lines), None)
  }

  lemma PostedOneMore(support: Index, drafts: seq<Draft>, last: nat)
    requires drafts != []
    ensures Posted(support, drafts, last)
         == Posted(support, drafts[..|drafts| - 1], last) + [LastPosted(support, drafts, last)]
  {
  }

  lemma LastOfOneMore(entries: seq<Entry>, e: Entry)
    ensures LastNumber(entries + [e]) == if e.number > LastNumber(entries) then e.number else LastNumber(entries)
  {
    assert (entries + [e])[..|entries|] == entries;
  }

  lemma {:induction false} PostedLast(entries: seq<Entry>, support: Index, drafts: seq<Draft>)
    ensures LastNumber(entries + Posted(support, drafts, LastNumber(entries))) == LastNumber(entries) + |drafts|
  {
    var last := LastNumber(entries);
    if drafts == [] {
      assert entries + Posted(support, drafts, last) == entries;
    } else {
      var n := |drafts| - 1;
      PostedLast(entries, support, drafts[..n]);
      PostedOneMore(support, drafts, last);
      Regroup(entries, Posted(support, drafts[..n], last), LastPosted(support, drafts, last));
      LastOfOneMore(entries + Posted(support, drafts[..n], last), LastPosted(support, drafts, last));
    }
  }

  lemma LastDraftPosts(mid: Books, support: Index, drafts: seq<Draft>, last: nat)
    requires drafts != [] && HasOpening(mid.entries)
    requires Fits(mid.accounts, mid.closedUntil, support, drafts[|drafts| - 1])
    requires LastNumber(mid.entries) == last + |drafts| - 1
    ensures PostDraft(mid, support, drafts[|drafts| - 1])
         == Ok(mid.(entries := mid.entries + [LastPosted(support, drafts, last)]))
  {
    FittingDraftPosts(mid, support, drafts[|drafts| - 1]);
  }

  lemma FittingStep(b: Books, support: Index, drafts: seq<Draft>)
    requires drafts != [] && HasOpening(b.entries)
    requires Fits(b.accounts, b.closedUntil, support, drafts[|drafts| - 1])
    requires PostDrafts(b, support, drafts[..|drafts| - 1])
          == Ok(b.(entries := b.entries + Posted(support, drafts[..|drafts| - 1], LastNumber(b.entries))))
    ensures PostDrafts(b, support, drafts)
         == Ok(b.(entries := b.entries + Posted(support, drafts, LastNumber(b.entries))))
  {
    var last := LastNumber(b.entries);
    var prefix := drafts[..|drafts| - 1];
    var mid := b.(entries := b.entries + Posted(support, prefix, last));
    OpeningStays(b.entries, Posted(support, prefix, last));
    PostedLast(b.entries, support, prefix);
    LastDraftPosts(mid, support, drafts, last);
    PostDraftsStep(b, support, drafts, mid);
    PostedOneMore(support, drafts, last);
    Regroup(b.entries, Posted(support, prefix, last), LastPosted(support, drafts, last));
  }

  /** Drafts that fit are all posted, in order, numbered on from the journal. */
  lemma {:induction false} FittingDraftsPost(b: Books, support: Index, drafts: seq<Draft>)
    requires HasOpening(b.entries) && forall i :: 0 <= i < |drafts| ==>
               Fits(b.accounts, b.closedUntil, support, drafts[i])
    ensures PostDrafts(b, support, drafts)
         == Ok(b.(entries := b.entries + Posted(support, drafts, LastNumber(b.entries))))
  {
    if drafts == [] {
      assert b.entries + Posted(support, drafts, LastNumber(b.entries)) == b.entries;
    } else {
      FittingDraftsPost(b, support, drafts[..|drafts| - 1]);
      FittingStep(b, support, drafts);
    }
  }

  lemma Regroup(a: seq<Entry>, b: seq<Entry>, e: Entry)
    ensures a + (b + [e]) == (a + b) + [e]
  {
  }

  lemma PostDraftsStep(b: Books, support: Index, drafts: seq<Draft>, mid: Books)
    requires drafts != [] && PostDrafts(b, support, drafts[..|drafts| - 1]) == Ok(mid)
    ensures PostDrafts(b, support, drafts) == PostDraft(mid, support, drafts[|drafts| - 1])
  {
  }

  lemma OpeningStays(entries: seq<Entry>, more: seq<Entry>)
    requires HasOpening(entries)
    ensures HasOpening(entries + more)
  {
    var e :| e in entries && e.source == Opening;
    assert e in entries + more;
  }

  lemma {:induction false} PostedTurnover(support: Index, drafts: seq<Draft>, last: nat, w: Window, side: Side,
                                          sel: AccountId -> bool)
    requires forall d :: d in drafts ==> w.Has(d.date)
    ensures Turnover(LinesIn(Posted(support, drafts, last), w), side, sel)
         == DraftSum(LinesOf(drafts), side, Resolving(support, sel))
  {
    if drafts != [] {
      var n := |drafts| - 1;
      assert drafts == drafts[..n] + [drafts[n]];
      PostedTurnover(support, drafts[..n], last, w, side, sel);
      var posted := Posted(support, drafts, last);
      assert posted == Posted(support, drafts[..n], last) + [posted[n]];
      LinesInConcat(posted[..n], [posted[n]], w);
      assert [posted[n]][1..] == [];
      assert LinesIn([posted[n]], w) == posted[n].lines + [] == posted[n].lines;
      TurnoverConcat(LinesIn(posted[..n], w), posted[n].lines, side, sel);
      ResolvedTurnover(support, drafts[n].lines, side, sel);
      DraftSumConcat(LinesOf(drafts[..n]), drafts[n].lines, side, Resolving(support, sel));
    }
  }

  // Facts about the nodes of a plan, before any account is resolved.

  /** Adjusting and closing the results keeps the nodes balanced; the result accounts end at zero. */
  lemma FinalIsSettled(accounts: seq<Account>, loaded: seq<BalanceNode>, req: Request)
    requires Balanced(accounts, loaded) && ResultsVerdict(Adjusted(loaded, req)).None?
    ensures Settled(accounts, Final(loaded, req))
  {
    AdjustedBalance(accounts, loaded, req);
    FinalSettled(accounts, Adjusted(loaded, req), req.closing);
  }

  /** The final nodes are the loaded ones plus what the adjustments and the result closing carry. */
  lemma FinalSums(accounts: seq<Account>, loaded: seq<BalanceNode>, req: Request, side: Side, p: Selection)
    requires Balanced(accounts, loaded)
    ensures Sum(Final(loaded, req), side, p)
         == Sum(loaded, side, p)
            + DraftSum(LinesOf(AdjustmentDrafts(loaded, req) + ResultDrafts(Adjusted(loaded, req), req.closing)), side, p)
  {
    var adjustments := AdjustmentDrafts(loaded, req);
    var adjusted := Adjusted(loaded, req);
    var results := ResultDrafts(adjusted, req.closing);
    AdjustedBalance(accounts, loaded, req);
    VirtualCanonical(accounts, loaded, LinesOf(adjustments));
    AppliedSum(accounts, loaded, LinesOf(adjustments), side, p);
    ResultDraftsOk(accounts, adjusted, req.closing);
    LinesOfCanonical(accounts, adjusted, results);
    AppliedSum(accounts, adjusted, LinesOf(results), side, p);
    LinesOfConcat(adjustments, results);
    DraftSumConcat(LinesOf(adjustments), LinesOf(results), side, p);
  }

  /** Every draft of a plan is sound. */
  lemma DraftsOk(accounts: seq<Account>, loaded: seq<BalanceNode>, req: Request, d: Draft)
    requires Balanced(accounts, loaded) && PlanFrom(loaded, req).Ok? && d in PlanFrom(loaded, req).value.Drafts()
    ensures DraftOk(d.lines) && exists nodes :: CanonicalLines(accounts, nodes, d.lines)
    ensures d.source != Opening && (d.date == req.closing || d.date == req.reopening)
  {
    var plan := PlanFrom(loaded, req).value;
    var adjusted, final := Adjusted(loaded, req), Final(loaded, req);
    AdjustedBalance(accounts, loaded, req);
    if d in plan.adjustments {
      VirtualCanonical(accounts, loaded, d.lines);
    } else if d in plan.results {
      ResultDraftsOk(accounts, adjusted, req.closing);
      assert CanonicalLines(accounts, adjusted, d.lines);
    } else {
      FinalIsSettled(accounts, loaded, req);
      PatrimonialOk(accounts, final);
      if d != plan.patrimonial {
        MirrorOk(accounts, final, PatrimonialLines(final));
      }
      assert CanonicalLines(accounts, final, d.lines);
    }
  }

  /** Every draft of a plan becomes a postable asiento: posting cannot reject it, and no support account is missing. */
  lemma DraftsFit(b: Books, req: Request, d: Draft)
    requires JournalOk(b) && EnsureSupport(b).Ok?
    requires PlanFrom(LoadNodes(b, req.closing), req).Ok?
    requires d in PlanFrom(LoadNodes(b, req.closing), req).value.Drafts()
    requires !Closed(b.closedUntil, req.closing) && req.closing < req.reopening
    ensures Fits(EnsureSupport(b).value.0.accounts, b.closedUntil, EnsureSupport(b).value.1, d)
    ensures Postable(EnsureSupport(b).value.0.accounts, Resolved(EnsureSupport(b).value.1, d.lines))
  {
    var loaded := LoadNodes(b, req.closing);
    LoadedBalanced(b, req.closing);
    SupportReady(b);
    var (ready, support) := EnsureSupport(b).value;
    DraftsOk(b.accounts, loaded, req, d);
    var nodes :| CanonicalLines(b.accounts, nodes, d.lines);
    ResolvedPostable(b.accounts, ready.accounts, support, nodes, d.lines);
    VerdictIsPostable(ready.accounts, Resolved(support, d.lines));
  }

  // Executing a plan.

  /** The plan the planner makes of some loaded nodes, once its guards have passed. */
  ghost predicate PlanOf(loaded: seq<BalanceNode>, req: Request, plan: Plan) {
    && ResultsVerdict(Adjusted(loaded, req)).None? && PatrimonialLines(Final(loaded, req)) != []
    && plan.adjustments == AdjustmentDrafts(loaded, req)
    && plan.results == ResultDrafts(Adjusted(loaded, req), req.closing)
    && plan.patrimonial == Draft(req.closing, PatrimonialClosing, PatrimonialLines(Final(loaded, req)))
    && plan.reopening == Draft(req.reopening, Reopening, Mirror(PatrimonialLines(Final(loaded, req))))
    && plan.sheet == SheetOf(Adjusted(loaded, req))
    && plan.snapshotLines == SnapshotLines(Final(loaded, req))
  }

  /** The part of a request's validation that posting depends on. */
  ghost predicate Admitted(b: Books, req: Request) {
    && HasOpening(b.entries) && req.closing < req.reopening && !Closed(b.closedUntil, req.closing)
    && forall e :: e in b.entries ==> e.date <= req.closing
  }

  /** `after` is what closing `b` as requested leaves, with these support accounts and this plan. */
  ghost predicate Closes(b: Books, req: Request, support: Index, plan: Plan, after: Books) {
    && JournalOk(b) && Admitted(b, req)
    && TableOk(after.accounts) && b.accounts <= after.accounts && SupportOk(after.accounts, support)
    && after.chart == b.chart + CLOSING_PARENTS
    && PlanOf(LoadNodes(b, req.closing), req, plan)
    && after.entries == b.entries + Posted(support, plan.Drafts(), LastNumber(b.entries))
    && (forall d :: d in plan.Drafts() ==> Postable(after.accounts, Resolved(support, d.lines)))
    && after.closedUntil == Some(req.closing)
    && after.snapshots == b.snapshots + [Snapshot(LastNumber(b.entries) + |plan.Drafts()| - 1,
                                                  LastNumber(b.entries) + |plan.Drafts()|,
                                                  req.closing, req.reopening, plan.sheet, plan.snapshotLines)]
  }

  lemma RequestFacts(b: Books, req: Request)
    requires RequestVerdict(b, req).None?
    ensures Admitted(b, req)
  {
  }

  lemma PlanFromIs(loaded: seq<BalanceNode>, req: Request)
    requires PlanFrom(loaded, req).Ok?
    ensures PlanOf(loaded, req, PlanFrom(loaded, req).value)
  {
  }

  lemma PostAllFits(b: Books, req: Request)
    requires JournalOk(b) && EnsureSupport(b).Ok? && Admitted(b, req)
    requires PlanFrom(LoadNodes(b, req.closing), req).Ok?
    ensures var (ready, support) := EnsureSupport(b).value;
            var drafts := PlanFrom(LoadNodes(b, req.closing), req).value.Drafts();
            && PostAll(b, drafts) == Ok(ready.(entries := b.entries + Posted(support, drafts, LastNumber(b.entries))))
            && forall d :: d in drafts ==> Postable(ready.accounts, Resolved(support, d.lines))
  {
    SupportReady(b);
    var (ready, support) := EnsureSupport(b).value;
    var drafts := PlanFrom(LoadNodes(b, req.closing), req).value.Drafts();
    forall d | d in drafts
      ensures Fits(ready.accounts, ready.closedUntil, support, d)
              && Postable(ready.accounts, Resolved(support, d.lines))
    {
      DraftsFit(b, req, d);
    }
    FittingDraftsPost(ready, support, drafts);
  }

  /** A closing that can be planned, and whose support accounts can be found or created, is carried out:
      none of its entries is rejected and no support account is found missing. */
  lemma ExecuteFollowsPlan(b: Books, req: Request)
    requires JournalOk(b)
    ensures Execute(b, req).Ok? <==> BuildPlan(b, req).Ok? && EnsureSupport(b).Ok?
    ensures BuildPlan(b, req).Err? ==> Execute(b, req) == Err(BuildPlan(b, req).error)
    ensures BuildPlan(b, req).Ok? && EnsureSupport(b).Err? ==> Execute(b, req) == Err(EnsureSupport(b).error)
  {
    if BuildPlan(b, req).Ok? && EnsureSupport(b).Ok? {
      RequestFacts(b, req);
      ExecutePlanIs(b, req, BuildPlan(b, req).value);
    }
  }

  lemma ExecuteCloses(b: Books, req: Request) returns (support: Index, plan: Plan)
    requires JournalOk(b) && Execute(b, req).Ok?
    ensures Closes(b, req, support, plan, Execute(b, req).value)
    ensures BuildPlan(b, req) == Ok(plan) && EnsureSupport(b).Ok? && EnsureSupport(b).value.1 == support
  {
    ExecuteFollowsPlan(b, req);
    plan := BuildPlan(b, req).value;
    support := EnsureSupport(b).value.1;
    RequestFacts(b, req);
    CloseIs(b, req, plan);
  }

  /** The books a closing leaves, given its support accounts. */
  function ClosedBooks(b: Books, req: Request, plan: Plan, ready: Books, support: Index): Books {
    var last := LastNumber(b.entries);
    var n := |plan.Drafts()|;
    ready.(entries := b.entries + Posted(support, plan.Drafts(), last), closedUntil := Some(req.closing),
           snapshots := b.snapshots + [Snapshot(last + n - 1, last + n, req.closing, req.reopening,
                                                plan.sheet, plan.snapshotLines)])
  }

  lemma SealedIs(b: Books, req: Request, plan: Plan, ready: Books, support: Index)
    requires ready.snapshots == b.snapshots
    ensures Sealed(ready.(entries := b.entries + Posted(support, plan.Drafts(), LastNumber(b.entries))), req, plan)
         == ClosedBooks(b, req, plan, ready, support)
  {
    var posted := Posted(support, plan.Drafts(), LastNumber(b.entries));
    var entries := b.entries + posted;
    assert entries[|entries| - 2] == posted[|posted| - 2] && entries[|entries| - 1] == posted[|posted| - 1];
  }

  lemma ExecutePlanIs(b: Books, req: Request, plan: Plan)
    requires JournalOk(b) && Admitted(b, req) && EnsureSupport(b).Ok?
    requires PlanFrom(LoadNodes(b, req.closing), req) == Ok(plan)
    ensures ExecutePlan(b, req, plan) == Ok(ClosedBooks(b, req, plan, EnsureSupport(b).value.0, EnsureSupport(b).value.1))
    ensures forall d :: d in plan.Drafts() ==>
              Postable(EnsureSupport(b).value.0.accounts, Resolved(EnsureSupport(b).value.1, d.lines))
  {
    SupportReady(b);
    PostAllFits(b, req);
    SealedIs(b, req, plan, EnsureSupport(b).value.0, EnsureSupport(b).value.1);
  }

  lemma CloseIs(b: Books, req: Request, plan: Plan)
    requires JournalOk(b) && Admitted(b, req) && EnsureSupport(b).Ok?
    requires PlanFrom(LoadNodes(b, req.closing), req) == Ok(plan)
    ensures ExecutePlan(b, req, plan).Ok?
    ensures Closes(b, req, EnsureSupport(b).value.1, plan, ExecutePlan(b, req, plan).value)
  {
    PlanFromIs(LoadNodes(b, req.closing), req);
    ExecutePlanIs(b, req, plan);
    SupportReady(b);
    var (ready, support) := EnsureSupport(b).value;
    ClosedBooksClose(b, req, plan, ready, support);
  }

  lemma ClosedBooksClose(b: Books, req: Request, plan: Plan, ready: Books, support: Index)
    requires JournalOk(b) && Admitted(b, req)
    requires TableOk(ready.accounts) && b.accounts <= ready.accounts && SupportOk(ready.accounts, support)
    requires ready.chart == b.chart + CLOSING_PARENTS
    requires PlanOf(LoadNodes(b, req.closing), req, plan)
    requires forall d :: d in plan.Drafts() ==> Postable(ready.accounts, Resolved(support, d.lines))
    ensures Closes(b, req, support, plan, ClosedBooks(b, req, plan, ready, support))
  {
    hide JournalOk, Admitted, TableOk, SupportOk, PlanOf, Postable, Resolved, Posted, LoadNodes, LastNumber;
  }

  // Turnovers of the posted drafts.

  lemma PostedSplit(support: Index, a: seq<Draft>, b: seq<Draft>, last: nat)
    ensures Posted(support, a + b, last) == Posted(support, a, last) + Posted(support, b, last + |a|)
  {
  }

  lemma Associate(a: seq<Entry>, b: seq<Entry>, c: seq<Entry>)
    ensures a + (b + c) == (a + b) + c
  {
  }

  lemma OneDraftTurnover(support: Index, d: Draft, last: nat, w: Window, side: Side, sel: AccountId -> bool)
    ensures Turnover(LinesIn(Posted(support, [d], last), w), side, sel)
         == if w.Has(d.date) then DraftSum(d.lines, side, Resolving(support, sel)) else 0
  {
    var e := Entry(last + 1, d.date, d.source, Resolved(support, d.lines), None);
    assert Posted(support, [d], last) == [e];
    assert [e][1..] == [];
    assert LinesIn([e], w) == if w.Has(e.date) then e.lines else [];
    ResolvedTurnover(support, d.lines, side, sel);
  }

  lemma PostedConcat(entries: seq<Entry>, support: Index, drafts: seq<Draft>, d: Draft, last: nat, w: Window,
                     side: Side, sel: AccountId -> bool)
    ensures Turnover(LinesIn(entries + Posted(support, drafts + [d], last), w), side, sel)
         == Turnover(LinesIn(entries + Posted(support, drafts, last), w), side, sel)
            + if w.Has(d.date) then DraftSum(d.lines, side, Resolving(support, sel)) else 0
  {
    var before := Posted(support, drafts, last);
    var tail := Posted(support, [d], last + |drafts|);
    PostedSplit(support, drafts, [d], last);
    Associate(entries, before, tail);
    LinesInConcat(entries + before, tail, w);
    TurnoverConcat(LinesIn(entries + before, w), LinesIn(tail, w), side, sel);
    OneDraftTurnover(support, d, last + |drafts|, w, side, sel);
  }

  // The main results about one closing.

  /** The drafts posted before the patrimonial closing. */
  function Early(plan: Plan): seq<Draft> { plan.adjustments + plan.results }

  /** The journal when only those have been posted. */
  function MidwayEntries(entries: seq<Entry>, plan: Plan, support: Index): seq<Entry> {
    entries + Posted(support, Early(plan), LastNumber(entries))
  }

  /** What each stage of the closing contributes to a turnover. */
  lemma StagesTurnover(entries: seq<Entry>, support: Index, plan: Plan, w: Window, side: Side, sel: AccountId -> bool)
    ensures Turnover(LinesIn(entries + Posted(support, plan.Drafts(), LastNumber(entries)), w), side, sel)
         == Turnover(LinesIn(MidwayEntries(entries, plan, support), w), side, sel)
            + (if w.Has(plan.patrimonial.date) then DraftSum(plan.patrimonial.lines, side, Resolving(support, sel)) else 0)
            + (if w.Has(plan.reopening.date) then DraftSum(plan.reopening.lines, side, Resolving(support, sel)) else 0)
  {
    var last := LastNumber(entries);
    assert plan.Drafts() == (Early(plan) + [plan.patrimonial]) + [plan.reopening];
    PostedConcat(entries, support, Early(plan) + [plan.patrimonial], plan.reopening, last, w, side, sel);
    PostedConcat(entries, support, Early(plan), plan.patrimonial, last, w, side, sel);
  }

  /** A journal nothing of which is dated after the closing, once the early drafts are posted,
      turns over what the final nodes hold. */
  lemma MidwayTurnover(b: Books, req: Request, support: Index, early: seq<Draft>, side: Side, sel: AccountId -> bool)
    requires JournalOk(b)
    requires early == AdjustmentDrafts(LoadNodes(b, req.closing), req)
                      + ResultDrafts(Adjusted(LoadNodes(b, req.closing), req), req.closing)
    ensures Turnover(LinesIn(b.entries + Posted(support, early, LastNumber(b.entries)), UpTo(req.closing)), side, sel)
         == Sum(Final(LoadNodes(b, req.closing), req), side, Resolving(support, sel))
  {
    var loaded := LoadNodes(b, req.closing);
    var w := UpTo(req.closing);
    LoadedBalanced(b, req.closing);
    FinalSums(b.accounts, loaded, req, side, Resolving(support, sel));
    LoadedTurnover(b, req.closing, support, side, sel);
    EarlyDates(b.accounts, loaded, req);
    var posted := Posted(support, early, LastNumber(b.entries));
    PostedTurnover(support, early, LastNumber(b.entries), w, side, sel);
    LinesInConcat(b.entries, posted, w);
    TurnoverConcat(LinesIn(b.entries, w), LinesIn(posted, w), side, sel);
  }

  lemma LoadedTurnover(b: Books, until: Date, support: Index, side: Side, sel: AccountId -> bool)
    requires JournalOk(b)
    ensures Sum(LoadNodes(b, until), side, Resolving(support, sel))
         == Turnover(LinesIn(b.entries, UpTo(until)), side, sel)
  {
    LinesOwned(b, UpTo(until));
    LoadedSums(b, until, side, Resolving(support, sel));
    forall l | l in LinesIn(b.entries, UpTo(until))
      ensures Seen(b.accounts, Resolving(support, sel))(l.account) == sel(l.account)
    {
      assert Target(support, RefOf(b.accounts, l.account)) == l.account;
    }
    SameTurnover(LinesIn(b.entries, UpTo(until)), side, Seen(b.accounts, Resolving(support, sel)), sel);
  }

  lemma EarlyDates(accounts: seq<Account>, loaded: seq<BalanceNode>, req: Request)
    requires Balanced(accounts, loaded)
    ensures forall d :: d in AdjustmentDrafts(loaded, req) + ResultDrafts(Adjusted(loaded, req), req.closing) ==>
              d.date == req.closing && (d.source == Adjustment || d.source == ResultClosing)
  {
    AdjustedBalance(accounts, loaded, req);
    ResultDraftsOk(accounts, Adjusted(loaded, req), req.closing);
  }

  /** Preview is faithful. Posting the adjustments and the result closing, with every virtual account resolved, gives
      each real account on each side exactly the total of the plan's final nodes that resolve to it. */
  lemma PreviewIsFaithful(b: Books, req: Request, support: Index, plan: Plan, after: Books, side: Side,
                          sel: AccountId -> bool)
    requires Closes(b, req, support, plan, after)
    ensures Turnover(LinesIn(MidwayEntries(b.entries, plan, support), UpTo(req.closing)), side, sel)
         == Sum(Final(LoadNodes(b, req.closing), req), side, Resolving(support, sel))
  {
    MidwayTurnover(b, req, support, Early(plan), side, sel);
  }

  lemma PreviewNet(b: Books, req: Request, support: Index, plan: Plan, after: Books, sel: AccountId -> bool)
    requires Closes(b, req, support, plan, after)
    ensures Net(LinesIn(MidwayEntries(b.entries, plan, support), UpTo(req.closing)), sel)
         == SumNet(Final(LoadNodes(b, req.closing), req), Resolving(support, sel))
  {
    PreviewIsFaithful(b, req, support, plan, after, Debit, sel);
    PreviewIsFaithful(b, req, support, plan, after, Credit, sel);
  }

  lemma StagesNet(entries: seq<Entry>, support: Index, plan: Plan, w: Window, sel: AccountId -> bool)
    ensures Net(LinesIn(entries + Posted(support, plan.Drafts(), LastNumber(entries)), w), sel)
         == Net(LinesIn(MidwayEntries(entries, plan, support), w), sel)
            + (if w.Has(plan.patrimonial.date) then DraftNet(plan.patrimonial.lines, Resolving(support, sel)) else 0)
            + (if w.Has(plan.reopening.date) then DraftNet(plan.reopening.lines, Resolving(support, sel)) else 0)
  {
    StagesTurnover(entries, support, plan, w, Debit, sel);
    StagesTurnover(entries, support, plan, w, Credit, sel);
  }

  lemma FinalCloses(b: Books, req: Request, q: Selection)
    requires JournalOk(b) && ResultsVerdict(Adjusted(LoadNodes(b, req.closing), req)).None?
    ensures var final := Final(LoadNodes(b, req.closing), req);
            SumNet(final, q) + DraftNet(PatrimonialLines(final), q) == 0
  {
    LoadedBalanced(b, req.closing);
    FinalIsSettled(b.accounts, LoadNodes(b, req.closing), req);
    EverythingCloses(b.accounts, Final(LoadNodes(b, req.closing), req), q);
  }

  /** After a closing every account, and every selection of accounts, nets to zero over all lines up to the closing
      date. */
  lemma ClosesToZero(b: Books, req: Request, support: Index, plan: Plan, after: Books, sel: AccountId -> bool)
    requires Closes(b, req, support, plan, after)
    ensures Net(LinesIn(after.entries, UpTo(req.closing)), sel) == 0
  {
    PreviewNet(b, req, support, plan, after, sel);
    StagesNet(b.entries, support, plan, UpTo(req.closing), sel);
    FinalCloses(b, req, Resolving(support, sel));
  }

  /** Reopening restores the books: over all history, every selection of accounts nets to what it did
      just before the patrimonial closing. */
  lemma ReopeningRestores(b: Books, req: Request, support: Index, plan: Plan, after: Books, sel: AccountId -> bool)
    requires Closes(b, req, support, plan, after)
    ensures Net(LinesIn(after.entries, Always()), sel)
         == Net(LinesIn(MidwayEntries(b.entries, plan, support), Always()), sel)
  {
    var final := Final(LoadNodes(b, req.closing), req);
    StagesNet(b.entries, support, plan, Always(), sel);
    PatrimonialMoves(final, Resolving(support, sel));
    ReopeningMoves(final, Resolving(support, sel));
  }

  lemma PostedEntry(support: Index, drafts: seq<Draft>, last: nat, e: Entry) returns (d: Draft)
    requires e in Posted(support, drafts, last)
    ensures d in drafts && e.date == d.date && e.source == d.source && e.lines == Resolved(support, d.lines)
            && e.reversalOf.None?
  {
    var i :| 0 <= i < |drafts| && Posted(support, drafts, last)[i] == e;
    d := drafts[i];
  }

  lemma EarlyPostable(b: Books, req: Request, support: Index, plan: Plan, after: Books)
    requires Closes(b, req, support, plan, after)
    ensures forall d :: d in Early(plan) ==> Postable(after.accounts, Resolved(support, d.lines))
    ensures forall d :: d in Early(plan) ==>
              d.date == req.closing && (d.source == Adjustment || d.source == ResultClosing)
  {
    LoadedBalanced(b, req.closing);
    EarlyDates(b.accounts, LoadNodes(b, req.closing), req);
    assert forall d :: d in Early(plan) ==> d in plan.Drafts();
  }

  lemma MidwayDates(b: Books, req: Request, support: Index, plan: Plan, after: Books)
    requires Closes(b, req, support, plan, after)
    ensures forall e :: e in MidwayEntries(b.entries, plan, support) ==> e.date <= req.closing
  {
    EarlyPostable(b, req, support, plan, after);
    EntriesDated(b.entries, support, Early(plan), LastNumber(b.entries), req.closing);
  }

  lemma MidwayPostable(b: Books, req: Request, support: Index, plan: Plan, after: Books)
    requires Closes(b, req, support, plan, after)
    ensures forall e :: e in MidwayEntries(b.entries, plan, support) ==> Postable(after.accounts, e.lines)
  {
    EarlyPostable(b, req, support, plan, after);
    EntriesPostable(b.accounts, after.accounts, b.entries, support, Early(plan), LastNumber(b.entries));
  }

  lemma EntriesDated(entries: seq<Entry>, support: Index, drafts: seq<Draft>, last: nat, until: Date)
    requires forall e :: e in entries ==> e.date <= until
    requires forall d :: d in drafts ==> d.date <= until
    ensures forall e :: e in entries + Posted(support, drafts, last) ==> e.date <= until
  {
    forall e | e in entries + Posted(support, drafts, last) ensures e.date <= until {
      if e !in entries {
        var d := PostedEntry(support, drafts, last, e);
      }
    }
  }

  lemma EntriesPostable(before: seq<Account>, accounts: seq<Account>, entries: seq<Entry>,
                        support: Index, drafts: seq<Draft>, last: nat)
    requires before <= accounts
    requires forall e :: e in entries ==> Postable(before, e.lines)
    requires forall d :: d in drafts ==> Postable(accounts, Resolved(support, d.lines))
    ensures forall e :: e in entries + Posted(support, drafts, last) ==> Postable(accounts, e.lines)
  {
    forall e | e in entries + Posted(support, drafts, last) ensures Postable(accounts, e.lines) {
      if e in entries {
        PostableGrows(before, accounts, e.lines);
      } else {
        var d := PostedEntry(support, drafts, last, e);
      }
    }
  }

  function OfAccount(id: AccountId): Selection { (r: AccountRef) => r.id == Some(id) }

  /** Preview is faithful, account by account, in the balances reloaded from the journal. */
  lemma ReloadIsFaithful(b: Books, req: Request, support: Index, plan: Plan, after: Books, side: Side, id: AccountId)
    requires Closes(b, req, support, plan, after)
    ensures Sum(LoadNodes(after.(entries := MidwayEntries(b.entries, plan, support)), req.closing), side, OfAccount(id))
         == Sum(Final(LoadNodes(b, req.closing), req), side, Resolving(support, Only(id)))
  {
    MidwayPostable(b, req, support, plan, after);
    ReloadTurnover(after.(entries := MidwayEntries(b.entries, plan, support)), req.closing, side, id);
    PreviewIsFaithful(b, req, support, plan, after, side, Only(id));
  }

  /** The nodes of any window carry, for an account, what the journal does in that window. */
  lemma WindowTurnover(b: Books, w: Window, side: Side, id: AccountId)
    requires JournalOk(b)
    ensures Sum(NodesFor(ByCode(b.accounts), b.accounts, LinesIn(b.entries, w)), side, OfAccount(id))
         == Turnover(LinesIn(b.entries, w), side, Only(id))
  {
    var lines := LinesIn(b.entries, w);
    LinesOwned(b, w);
    ByCodeOnce(b.accounts);
    NodesForSums(ByCode(b.accounts), b.accounts, lines, side, OfAccount(id));
    SumIdsIsTurnover(ByCode(b.accounts), b.accounts, lines, side, OfAccount(id));
    forall l | l in lines ensures Seen(b.accounts, OfAccount(id))(l.account) == Only(id)(l.account) {
      assert RefOf(b.accounts, l.account).id == Some(l.account);
    }
    SameTurnover(lines, side, Seen(b.accounts, OfAccount(id)), Only(id));
  }

  lemma ReloadTurnover(b: Books, until: Date, side: Side, id: AccountId)
    requires JournalOk(b)
    ensures Sum(LoadNodes(b, until), side, OfAccount(id)) == Turnover(LinesIn(b.entries, UpTo(until)), side, Only(id))
  {
    WindowTurnover(b, UpTo(until), side, id);
  }

  /** Accounts of a rubro. */
  function InRoot(accounts: seq<Account>, root: nat): AccountId -> bool {
    (id: AccountId) => id < |accounts| && accounts[id].parent.root == root
  }

  /** Accounts of a colectiva. */
  function InColectiva(accounts: seq<Account>, parent: Code): AccountId -> bool {
    (id: AccountId) => id < |accounts| && accounts[id].parent == parent
  }

  /** A canonical reference is posted to an account of its own colectiva. */
  lemma TargetParent(before: seq<Account>, accounts: seq<Account>, support: Index, r: AccountRef)
    requires Canonical(before, r) && before <= accounts && SupportOk(accounts, support)
    ensures Target(support, r) < |accounts| && accounts[Target(support, r)].parent == r.parent
  {
    if r.id.None? {
      var s :| s in SUPPORT && r == VirtualRef(s.parent, s.name);
      assert SupportKey(r) == KeyOfSpec(s);
    }
  }

  lemma MidwayAlways(b: Books, req: Request, support: Index, plan: Plan, after: Books)
    requires Closes(b, req, support, plan, after)
    ensures LinesIn(MidwayEntries(b.entries, plan, support), Always())
         == LinesIn(MidwayEntries(b.entries, plan, support), UpTo(req.closing))
  {
    MidwayDates(b, req, support, plan, after);
    SameLines(MidwayEntries(b.entries, plan, support), Always(), UpTo(req.closing));
  }

  /** Over all history the closed books net to what the final nodes that resolve to the accounts do. */
  lemma ClosedNet(b: Books, req: Request, support: Index, plan: Plan, after: Books, sel: AccountId -> bool)
    requires Closes(b, req, support, plan, after)
    ensures Net(LinesIn(after.entries, Always()), sel)
         == SumNet(Final(LoadNodes(b, req.closing), req), Resolving(support, sel))
  {
    ReopeningRestores(b, req, support, plan, after, sel);
    MidwayAlways(b, req, support, plan, after);
    PreviewNet(b, req, support, plan, after, sel);
  }

  lemma SameNet(nodes: seq<BalanceNode>, p: Selection, q: Selection)
    requires forall n :: n in nodes ==> p(n.ref) == q(n.ref)
    ensures SumNet(nodes, p) == SumNet(nodes, q)
  {
    SameBalance(nodes, Debit, p, q);
    SameBalance(nodes, Credit, p, q);
  }

  /** After a closing and its reopening the accounts of the result rubros still net to zero. */
  lemma ResultsStayClosed(b: Books, req: Request, support: Index, plan: Plan, after: Books, root: nat,
                          sel: AccountId -> bool)
    requires Closes(b, req, support, plan, after) && (root == 4 || root == 5)
    requires forall id: AccountId :: sel(id) ==> InRoot(after.accounts, root)(id)
    ensures Net(LinesIn(after.entries, Always()), sel) == 0
  {
    var loaded := LoadNodes(b, req.closing);
    var final := Final(loaded, req);
    ClosedNet(b, req, support, plan, after, sel);
    LoadedBalanced(b, req.closing);
    FinalIsSettled(b.accounts, loaded, req);
    forall n | n in final ensures Resolving(support, sel)(n.ref) == Both(Rooted(root), Resolving(support, sel))(n.ref) {
      TargetParent(b.accounts, after.accounts, support, n.ref);
    }
    SameNet(final, Resolving(support, sel), Both(Rooted(root), Resolving(support, sel)));
  }

  /** A counted colectiva ends at its count in the final nodes, all of it patrimonial. */
  lemma CountedNodes(accounts: seq<Account>, loaded: seq<BalanceNode>, req: Request, parent: Code, actual: int)
    requires Balanced(accounts, loaded)
    requires (parent == CASH && req.cash == Some(actual)) || (parent == INVENTORY && req.inventory == Some(actual))
    ensures SumNet(Adjusted(loaded, req), Under(parent)) == actual
    ensures SumNet(Final(loaded, req), Under(parent)) == actual
    ensures DraftNet(Mirror(PatrimonialLines(Final(loaded, req))), Under(parent)) == actual
  {
    AdjustedBalance(accounts, loaded, req);
    AssetsUntouched(accounts, Adjusted(loaded, req), req.closing, parent);
    ReopeningMoves(Final(loaded, req), Under(parent));
    SameNet(Final(loaded, req), Both(Patrimonial(), Under(parent)), Under(parent));
  }

  lemma CountInSnapshot(accounts: seq<Account>, loaded: seq<BalanceNode>, req: Request, parent: Code, actual: int)
    requires Balanced(accounts, loaded)
    requires (parent == CASH && req.cash == Some(actual)) || (parent == INVENTORY && req.inventory == Some(actual))
    ensures SnapshotNet(SnapshotLines(Final(loaded, req)), Under(parent)) == actual
  {
    CountedNodes(accounts, loaded, req, parent, actual);
    SnapshotCarries(Final(loaded, req), Under(parent));
    SameNet(Final(loaded, req), Both(Patrimonial(), Under(parent)), Under(parent));
  }

  /** What the final nodes of a colectiva hold is what the accounts of the colectiva are posted. */
  lemma ColectivaNet(accounts: seq<Account>, after: seq<Account>, support: Index, nodes: seq<BalanceNode>, parent: Code)
    requires CanonicalNodes(accounts, nodes) && accounts <= after && SupportOk(after, support)
    ensures SumNet(nodes, Resolving(support, InColectiva(after, parent))) == SumNet(nodes, Under(parent))
    ensures InRubro(parent) && parent.root <= 3 ==>
              SumNet(nodes, Both(Patrimonial(), Resolving(support, InColectiva(after, parent)))) == SumNet(nodes, Under(parent))
  {
    var p := Resolving(support, InColectiva(after, parent));
    forall n | n in nodes ensures p(n.ref) == Under(parent)(n.ref) {
      TargetParent(accounts, after, support, n.ref);
    }
    SameNet(nodes, p, Under(parent));
    if InRubro(parent) && parent.root <= 3 {
      SameNet(nodes, Both(Patrimonial(), p), Under(parent));
    }
  }

  /** A counted amount carries over: the reopening entry books exactly what was counted for the colectiva, and so
      does the whole history of the closed books. */
  lemma CountCarriesOver(b: Books, req: Request, support: Index, plan: Plan, after: Books, parent: Code, actual: int)
    requires Closes(b, req, support, plan, after)
    requires (parent == CASH && req.cash == Some(actual)) || (parent == INVENTORY && req.inventory == Some(actual))
    ensures Net(Resolved(support, plan.reopening.lines), InColectiva(after.accounts, parent)) == actual
    ensures Net(LinesIn(after.entries, Always()), InColectiva(after.accounts, parent)) == actual
  {
    var loaded := LoadNodes(b, req.closing);
    var sel := InColectiva(after.accounts, parent);
    LoadedBalanced(b, req.closing);
    CountedNodes(b.accounts, loaded, req, parent, actual);
    FinalIsSettled(b.accounts, loaded, req);
    ColectivaNet(b.accounts, after.accounts, support, Final(loaded, req), parent);
    ClosedNet(b, req, support, plan, after, sel);
    ReopeningMoves(Final(loaded, req), Resolving(support, sel));
    ResolvedTurnover(support, plan.reopening.lines, Debit, sel);
    ResolvedTurnover(support, plan.reopening.lines, Credit, sel);
  }

  /** And the snapshot stores exactly what was counted for the colectiva. */
  lemma CountIsStored(b: Books, req: Request, support: Index, plan: Plan, after: Books, parent: Code, actual: int)
    requires Closes(b, req, support, plan, after)
    requires (parent == CASH && req.cash == Some(actual)) || (parent == INVENTORY && req.inventory == Some(actual))
    ensures |after.snapshots| == |b.snapshots| + 1
    ensures SnapshotNet(after.snapshots[|b.snapshots|].lines, Under(parent)) == actual
  {
    LoadedBalanced(b, req.closing);
    CountInSnapshot(b.accounts, LoadNodes(b, req.closing), req, parent, actual);
  }

  /** The two entries a closing ends with. */
  function ClosingEntry(entries: seq<Entry>, plan: Plan, support: Index): Entry {
    var d := plan.patrimonial;
    Entry(LastNumber(entries) + |Early(plan)| + 1, d.date, d.source, Resolved(support, d.lines), None)
  }

  function ReopeningEntry(entries: seq<Entry>, plan: Plan, support: Index): Entry {
    var d := plan.reopening;
    Entry(LastNumber(entries) + |Early(plan)| + 2, d.date, d.source, Resolved(support, d.lines), None)
  }

  /** After a closing the journal ends with the patrimonial closing and the reopening of the plan. */
  lemma AfterEntries(entries: seq<Entry>, support: Index, plan: Plan)
    ensures entries + Posted(support, plan.Drafts(), LastNumber(entries))
         == MidwayEntries(entries, plan, support)
            + [ClosingEntry(entries, plan, support), ReopeningEntry(entries, plan, support)]
  {
    var last := LastNumber(entries);
    var tail := [plan.patrimonial, plan.reopening];
    PostedSplit(support, Early(plan), tail, last);
    Associate(entries, Posted(support, Early(plan), last), Posted(support, tail, last + |Early(plan)|));
    assert Posted(support, tail, last + |Early(plan)|)
        == [ClosingEntry(entries, plan, support), ReopeningEntry(entries, plan, support)];
  }

  lemma ResolvedSplit(support: Index, a: seq<DraftLine>, l: DraftLine, c: seq<DraftLine>)
    ensures Resolved(support, a + [l] + c) == Resolved(support, a) + Resolved(support, [l]) + Resolved(support, c)
    ensures multiset(a + [l] + c) == multiset([l]) + multiset(a + c)
    ensures multiset(Resolved(support, a + [l] + c)) == multiset(Resolved(support, [l])) + multiset(Resolved(support, a + c))
  {
    assert Resolved(support, a + c) == Resolved(support, a) + Resolved(support, c);
  }

  lemma TakeOut(lines: seq<DraftLine>, l: DraftLine) returns (before: seq<DraftLine>, rest: seq<DraftLine>)
    requires l in multiset(lines)
    ensures lines == before + [l] + rest
  {
    var j :| 0 <= j < |lines| && lines[j] == l;
    before, rest := lines[..j], lines[j + 1..];
  }

  lemma SameRest(a: multiset<DraftLine>, c: multiset<DraftLine>, l: DraftLine)
    requires multiset([l]) + a == multiset([l]) + c
    ensures a == c
  {
    assert a == multiset([l]) + a - multiset([l]);
  }

  /** Lines in another order resolve to lines in another order. */
  lemma {:induction false} ResolvedPermuted(support: Index, a: seq<DraftLine>, c: seq<DraftLine>)
    requires multiset(a) == multiset(c)
    ensures multiset(Resolved(support, a)) == multiset(Resolved(support, c))
  {
    if a == [] {
      assert |multiset(c)| == 0;
    } else {
      hide Resolved;
      assert a == [] + [a[0]] + a[1..] && [] + a[1..] == a[1..];
      ResolvedSplit(support, [], a[0], a[1..]);
      assert a[0] in multiset(a);
      var before, rest := TakeOut(c, a[0]);
      ResolvedSplit(support, before, a[0], rest);
      SameRest(multiset(a[1..]), multiset(before + rest), a[0]);
      ResolvedPermuted(support, a[1..], before + rest);
    }
  }

  /** The snapshot a closing stores carries exactly the accounts, sides and amounts of its reopening: those of the draft,
      and, with its virtual accounts resolved, those of the posted entry. It names the two entries it belongs to. */
  lemma SnapshotMatchesReopening(b: Books, req: Request, support: Index, plan: Plan, after: Books)
    requires Closes(b, req, support, plan, after)
    ensures |after.snapshots| == |b.snapshots| + 1 && |after.entries| >= 2
    ensures multiset(BookedAll(after.snapshots[|b.snapshots|].lines)) == multiset(plan.reopening.lines)
    ensures multiset(Resolved(support, BookedAll(after.snapshots[|b.snapshots|].lines)))
         == multiset(after.entries[|after.entries| - 1].lines)
    ensures after.entries[|after.entries| - 1].source == Reopening
    ensures after.entries[|after.entries| - 2].number == after.snapshots[|b.snapshots|].closingEntry
    ensures after.entries[|after.entries| - 1].number == after.snapshots[|b.snapshots|].reopeningEntry
  {
    SnapshotIsReopening(Final(LoadNodes(b, req.closing), req));
    ResolvedPermuted(support, BookedAll(plan.snapshotLines), plan.reopening.lines);
    AfterEntries(b.entries, support, plan);
  }
}
