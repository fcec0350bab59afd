/** A payload the static validator accepts passes every dynamic guard of the replay that the validator stands for. */
module DemoSoundness {
  import opened Basics
  import opened Sorting
  import opened Model
  import opened Turnovers
  import opened Journal
  import opened AccountResolution
  import opened Names
  import opened ClosingSupport
  import opened Exercises
  import opened OpeningEntry
  import opened Balances
  import opened ClosingPlan
  import opened ClosingExecution
  import opened ClosingTheorems
  import opened Runs
  import opened DemoValidation
  import opened DemoImport
  import ClosingAcceptance

  /** The guards of a closing that look at the balances. */
  predicate BalanceGuard(e: Error) {
    e == AssetSide || e == LiabilitySide || e == EquitySide || e == NegativeResultSide || e == PositiveResultSide
    || e == NothingToClose
  }

  /** Failures to find or create an account: its colectiva is full, or an unlinked row of that name has children. */
  predicate AccountGuard(e: Error) { e == CodesExhausted || e == NotMovement }

  predicate StillPossible(e: Error) { BalanceGuard(e) || AccountGuard(e) }

  /** The base chart has been loaded. */
  ghost predicate ChartLoaded(b: Books) { forall c :: ValidParent(c) ==> c in b.chart }

  // Accounts.

  lemma {:induction false} ResolveEachFails(accounts: seq<Account>, specs: seq<Spec>)
    ensures ResolveEach(accounts, specs).Err? ==> AccountGuard(ResolveEach(accounts, specs).error)
  {
    if specs != [] {
      var n := |specs| - 1;
      ResolveEachFails(accounts, specs[..n]);
      if ResolveEach(accounts, specs[..n]).Ok? {
        ResolveOneFails(ResolveEach(accounts, specs[..n]).value.0, specs[n]);
      }
    }
  }

  lemma ResolveFails(b: Books, specs: seq<Spec>)
    requires ChartLoaded(b) && forall s :: s in specs ==> ValidParent(s.parent)
    ensures Resolve(b, specs).Err? ==> AccountGuard(Resolve(b, specs).error)
  {
    ResolveEachFails(b.accounts, specs);
  }

  lemma {:induction false} EnsureEachFails(accounts: seq<Account>, chart: set<Code>, specs: seq<Spec>)
    requires forall s :: s in specs ==> s.parent in chart
    ensures EnsureEach(accounts, chart, specs).Err? ==> EnsureEach(accounts, chart, specs).error == CodesExhausted
  {
    if specs != [] {
      var n := |specs| - 1;
      assert specs == specs[..n] + [specs[n]];
      EnsureEachFails(accounts, chart, specs[..n]);
    }
  }

  lemma EnsureFails(b: Books)
    requires ChartLoaded(b)
    ensures EnsureSupport(b).Err? ==> EnsureSupport(b).error == CodesExhausted
  {
    EnsureEachFails(b.accounts, b.chart + CLOSING_PARENTS, SUPPORT);
  }

  // Postings.

  lemma KindsDiffer()
    ensures "DEBIT" != "CREDIT" && SideOf("DEBIT") == Debit && SideOf("CREDIT") == Credit
  {
    assert "DEBIT"[0] != "CREDIT"[0];
  }

  lemma OneMoreDemoLine(ids: Index, lines: seq<DemoLine>)
    requires lines != []
    ensures DemoLinesOf(ids, lines) == DemoLinesOf(ids, lines[..|lines| - 1]) + [DemoLineOf(ids, lines[|lines| - 1])]
  {
  }

  lemma LineTurnover(l: Line, side: Side)
    ensures Turnover([l], side, Everything()) == if l.side == side then l.amount else 0
  {
    assert [l][1..] == [];
  }

  lemma {:induction false} DemoTurnover(ids: Index, lines: seq<DemoLine>, side: Side)
    requires forall l :: l in lines ==> LineAccepted(l)
    ensures Turnover(DemoLinesOf(ids, lines), side, Everything())
         == KindTotal(lines, if side == Debit then "DEBIT" else "CREDIT")
  {
    if lines != [] {
      var n := |lines| - 1;
      var last := DemoLineOf(ids, lines[n]);
      assert lines[n] in lines;
      assert forall l :: l in lines[..n] ==> l in lines;
      DemoTurnover(ids, lines[..n], side);
      OneMoreDemoLine(ids, lines);
      TurnoverConcat(DemoLinesOf(ids, lines[..n]), [last], side, Everything());
      LineTurnover(last, side);
      KindsDiffer();
    }
  }

  lemma DemoLineOk(accounts: seq<Account>, ids: Index, l: DemoLine)
    requires LineAccepted(l) && KeyOfSpec(Spec(l.parent, l.name)) in ids
    requires forall key :: key in ids ==> Serves(accounts, ids[key], key)
    ensures LineOk(accounts, DemoLineOf(ids, l))
  {
  }

  lemma DemoHasSide(ids: Index, lines: seq<DemoLine>, kind: string)
    requires exists l :: l in lines && l.kind == kind
    ensures exists r :: r in DemoLinesOf(ids, lines) && r.side == SideOf(kind)
  {
    var l :| l in lines && l.kind == kind;
    var i :| 0 <= i < |lines| && lines[i] == l;
    assert DemoLinesOf(ids, lines)[i] in DemoLinesOf(ids, lines);
  }

  /** An accepted entry becomes a postable asiento. */
  lemma DemoPostable(accounts: seq<Account>, ids: Index, lines: seq<DemoLine>)
    requires LinesAccepted(lines)
    requires forall l :: l in lines ==> KeyOfSpec(Spec(l.parent, l.name)) in ids
    requires forall key :: key in ids ==> Serves(accounts, ids[key], key)
    ensures Postable(accounts, DemoLinesOf(ids, lines))
  {
    var posted := DemoLinesOf(ids, lines);
    forall r | r in posted ensures LineOk(accounts, r) {
      var i :| 0 <= i < |posted| && posted[i] == r;
      assert lines[i] in lines;
      DemoLineOk(accounts, ids, lines[i]);
    }
    DemoHasSide(ids, lines, "DEBIT");
    DemoHasSide(ids, lines, "CREDIT");
    KindsDiffer();
    DemoTurnover(ids, lines, Debit);
    DemoTurnover(ids, lines, Credit);
  }

  /** Where the replay stands inside an exercise: sound books, the exercise in progress begun on `start`,
      the lock before it, and nothing dated after `latest`. */
  ghost predicate Standing(b: Books, start: Date, latest: Date) {
    Inv(b) && ChartLoaded(b) && Placed(b.entries, b.closedUntil, start, latest)
  }

  ghost predicate Placed(entries: seq<Entry>, closedUntil: Option<Date>, start: Date, latest: Date) {
    && entries != [] && Boundaries(entries) != [] && Boundaries(entries)[|Boundaries(entries)| - 1].date == start
    && !Closed(closedUntil, start) && start <= latest
    && forall e :: e in entries ==> e.date <= latest
  }

  lemma PlacedOnward(entries: seq<Entry>, closedUntil: Option<Date>, start: Date, latest: Date, e: Entry)
    requires Placed(entries, closedUntil, start, latest) && latest <= e.date && !e.source.Boundary()
    ensures Placed(entries + [e], closedUntil, start, e.date)
  {
    OneMoreBoundary(entries, e);
  }

  lemma PlacedPost(b: Books, start: Date, latest: Date, date: Date, lines: seq<Line>)
    requires HasOpening(b.entries) && Placed(b.entries, b.closedUntil, start, latest) && latest <= date
    requires LinesVerdict(b.accounts, lines).None?
    ensures Post(b, date, Manual, lines).Ok?
    ensures var after := Post(b, date, Manual, lines).value;
            after.chart == b.chart && Placed(after.entries, after.closedUntil, start, date)
  {
    assert !Closed(b.closedUntil, date);
    PlacedOnward(b.entries, b.closedUntil, start, latest, Entry(LastNumber(b.entries) + 1, date, Manual, lines, None));
  }

  lemma SpecsServed(b: Books, lines: seq<DemoLine>)
    requires Inv(b) && Resolve(b, SpecsOfLines(lines)).Ok?
    ensures var (ready, ids) := Resolve(b, SpecsOfLines(lines)).value;
            && Inv(ready) && ready == b.(accounts := ready.accounts)
            && (forall l :: l in lines ==> KeyOfSpec(Spec(l.parent, l.name)) in ids)
            && (forall key :: key in ids ==> Serves(ready.accounts, ids[key], key))
  {
    var specs := SpecsOfLines(lines);
    ResolveKeeps(b, specs);
    ResolveServes(b.accounts, specs);
    forall l | l in lines ensures KeyOfSpec(Spec(l.parent, l.name)) in Resolve(b, specs).value.1 {
      var i :| 0 <= i < |lines| && lines[i] == l;
      assert specs[i] in specs;
    }
  }

  /** Posting an ordinary entry at or after the start and the latest date keeps the replay standing. */
  lemma PostStands(b: Books, start: Date, latest: Date, date: Date, lines: seq<Line>)
    requires Standing(b, start, latest) && latest <= date && Postable(b.accounts, lines)
    ensures Post(b, date, Manual, lines).Ok? && Standing(Post(b, date, Manual, lines).value, start, date)
  {
    OpenedIff(b.entries);
    VerdictIsPostable(b.accounts, lines);
    PlacedPost(b, start, latest, date, lines);
    PostKeeps(b, date, Manual, lines);
  }

  /** An entry whose accounts have been resolved. */
  lemma ResolvedEntryStands(b: Books, start: Date, latest: Date, e: DemoEntry)
    requires Standing(b, start, latest) && e.source == Manual && LinesAccepted(e.lines) && latest <= e.date
    requires Resolve(b, SpecsOfLines(e.lines)).Ok?
    ensures ImportEntry(b, e).Ok? && Standing(ImportEntry(b, e).value, start, e.date)
  {
    SpecsServed(b, e.lines);
    var (ready, ids) := Resolve(b, SpecsOfLines(e.lines)).value;
    DemoPostable(ready.accounts, ids, e.lines);
    PostStands(ready, start, latest, e.date, DemoLinesOf(ids, e.lines));
  }

  lemma SpecsValid(lines: seq<DemoLine>)
    requires LinesAccepted(lines)
    ensures forall s :: s in SpecsOfLines(lines) ==> ValidParent(s.parent)
  {
    var specs := SpecsOfLines(lines);
    forall s | s in specs ensures ValidParent(s.parent) {
      var i :| 0 <= i < |specs| && specs[i] == s;
      assert lines[i] in lines;
    }
  }

  lemma ImportEntryStands(b: Books, start: Date, latest: Date, e: DemoEntry)
    requires Standing(b, start, latest) && EntryAccepted(e, start) && latest <= e.date
    ensures match ImportEntry(b, e)
            case Ok(after) => Standing(after, start, e.date)
            case Err(error) => AccountGuard(error)
  {
    SpecsValid(e.lines);
    ResolveFails(b, SpecsOfLines(e.lines));
    if Resolve(b, SpecsOfLines(e.lines)).Ok? {
      ResolvedEntryStands(b, start, latest, e);
    }
  }

  function LatestDate(entries: seq<DemoEntry>, start: Date): Date {
    if entries == [] then start else entries[|entries| - 1].date
  }

  lemma EntriesPrefix(entries: seq<DemoEntry>, start: Date, n: nat)
    requires EntriesAccepted(entries, start) && n <= |entries|
    ensures EntriesAccepted(entries[..n], start)
  {
  }

  lemma {:induction false} ImportEntriesStand(b: Books, start: Date, entries: seq<DemoEntry>)
    requires Standing(b, start, start) && EntriesAccepted(entries, start)
    ensures match ImportEntries(b, entries)
            case Ok(after) => Standing(after, start, LatestDate(entries, start))
            case Err(error) => AccountGuard(error)
  {
    if entries != [] {
      var n := |entries| - 1;
      EntriesPrefix(entries, start, n);
      ImportEntriesStand(b, start, entries[..n]);
      if ImportEntries(b, entries[..n]).Ok? {
        ImportEntryStands(ImportEntries(b, entries[..n]).value, start, LatestDate(entries[..n], start), entries[n]);
      }
    }
  }

  // Closings.

  /** Every date, chain and duplicate check of the closing request passes. */
  lemma RequestPasses(b: Books, start: Date, latest: Date, req: Request)
    requires Standing(b, start, latest) && latest <= req.closing && req.closing < req.reopening
    ensures RequestVerdict(b, req).None?
  {
    OpenedIff(b.entries);
    ClosingAcceptance.RequestGuardIff(b, req);
  }

  lemma PlanFails(loaded: seq<BalanceNode>, req: Request)
    ensures PlanFrom(loaded, req).Err? ==> BalanceGuard(PlanFrom(loaded, req).error)
  {
  }

  lemma LastBoundary(entries: seq<Entry>, p: Entry, r: Entry)
    requires p.source.Boundary() && r.source.Boundary()
    ensures Boundaries(entries + [p, r]) != []
    ensures Boundaries(entries + [p, r])[|Boundaries(entries + [p, r])| - 1] == r
  {
    TwoMoreBoundaries(entries, p, r);
  }

  /** A closing and its reopening, dated after everything before them, start the next exercise. */
  lemma SealPlaces(b: Books, p: Entry, r: Entry, s: Snapshot, after: Books)
    requires Seals(b, p, r, s, after)
    ensures Placed(after.entries, after.closedUntil, r.date, r.date) && after.chart == b.chart
  {
    LastBoundary(b.entries, p, r);
    assert r in after.entries;
  }

  /** After a closing the replay stands at the start of the next exercise. */
  lemma CloseStands(b: Books, req: Request, support: Index, plan: Plan, after: Books)
    requires Inv(b) && ChartLoaded(b) && Closes(b, req, support, plan, after)
    ensures Standing(after, req.reopening, req.reopening)
  {
    ClosedKeeps(b, req, support, plan, after);
    NextNumber(b.entries);
    ClosesSeals(b, req, support, plan, after);
    ClosesDates(b, req, support, plan, after);
    SealPlaces(Midway(b, support, plan, after), ClosingEntry(b.entries, plan, support),
               ReopeningEntry(b.entries, plan, support), after.snapshots[|b.snapshots|], after);
  }

  lemma ClosesDates(b: Books, req: Request, support: Index, plan: Plan, after: Books)
    requires Closes(b, req, support, plan, after)
    ensures ReopeningEntry(b.entries, plan, support).date == req.reopening
  {
  }

  lemma ExecuteStands(b: Books, start: Date, latest: Date, req: Request)
    requires Standing(b, start, latest) && latest <= req.closing && req.closing < req.reopening
    ensures match Execute(b, req)
            case Ok(after) => Standing(after, req.reopening, req.reopening)
            case Err(error) => StillPossible(error)
  {
    if Execute(b, req).Ok? {
      var support, plan := ExecuteCloses(b, req);
      CloseStands(b, req, support, plan, Execute(b, req).value);
    } else {
      RequestPasses(b, start, latest, req);
      PlanFails(LoadNodes(b, req.closing), req);
      ExecuteFollowsPlan(b, req);
      EnsureFails(b);
    }
  }

  lemma ImportExerciseStands(b: Books, start: Date, x: DemoExercise, last: bool)
    requires Standing(b, start, start) && EntriesAccepted(x.entries, start) && ClosingAccepted(x, start, last)
    ensures match ImportExercise(b, x)
            case Ok(after) => Inv(after)
                              && (x.closing.Some? ==> Standing(after, x.closing.value.reopening, x.closing.value.reopening))
            case Err(error) => StillPossible(error)
  {
    ImportEntriesStand(b, start, x.entries);
    if ImportEntries(b, x.entries).Ok? && x.closing.Some? {
      ExecuteStands(ImportEntries(b, x.entries).value, start, LatestDate(x.entries, start), x.closing.value);
    }
  }

  lemma ImportExercisesStep(b: Books, p: DemoPayload, k: nat)
    requires k < |p.exercises|
    ensures ImportExercises(b, p.exercises[..k + 1])
         == match ImportExercises(b, p.exercises[..k])
            case Ok(before) => ImportExercise(before, p.exercises[k])
            case Err(error) => Err(error)
  {
    assert p.exercises[..k + 1][..k] == p.exercises[..k];
  }

  lemma ImportKthStands(b: Books, p: DemoPayload, k: nat)
    requires Accepted(p) && k < |p.exercises| && Standing(b, ExpectedStart(p, k), ExpectedStart(p, k))
    ensures match ImportExercise(b, p.exercises[k])
            case Ok(after) => Inv(after)
                              && (k + 1 < |p.exercises| ==> Standing(after, ExpectedStart(p, k + 1), ExpectedStart(p, k + 1)))
            case Err(error) => StillPossible(error)
  {
    assert ExerciseAccepted(p, k);
    ImportExerciseStands(b, ExpectedStart(p, k), p.exercises[k], k == |p.exercises| - 1);
  }

  /** Replaying the first k exercises of an accepted payload from the opened company. */
  lemma {:induction false} ImportExercisesStand(b: Books, p: DemoPayload, k: nat)
    requires Accepted(p) && k <= |p.exercises| && Standing(b, p.opening.date, p.opening.date)
    ensures match ImportExercises(b, p.exercises[..k])
            case Ok(after) => Inv(after)
                              && (k < |p.exercises| ==> Standing(after, ExpectedStart(p, k), ExpectedStart(p, k)))
            case Err(error) => StillPossible(error)
  {
    hide Accepted, ImportExercise;
    if k > 0 {
      ImportExercisesStand(b, p, k - 1);
      ImportExercisesStep(b, p, k - 1);
      if ImportExercises(b, p.exercises[..k - 1]).Ok? {
        ImportKthStands(ImportExercises(b, p.exercises[..k - 1]).value, p, k - 1);
      }
    }
  }

  // The opening.

  lemma OpeningSpecsValid(p: Payload)
    requires OpeningAccepted(p)
    ensures forall s :: s in OpeningSpecs(p) ==> ValidParent(s.parent)
  {
    GroupPositive(p.assets);
    GroupPositive(p.liabilities);
    ItemsValid(p.assets, OPENING_ASSETS);
    ItemsValid(p.liabilities, OPENING_LIABILITIES);
  }

  lemma ItemsValid(items: seq<Item>, parents: set<Code>)
    requires forall x :: x in items ==> x.parent in parents && x.amount > 0
    requires forall c :: c in parents ==> ValidParent(c)
    ensures forall s :: s in SpecsOf(Group(items)) ==> ValidParent(s.parent)
  {
    GroupPositive(items);
    forall s | s in SpecsOf(Group(items)) ensures ValidParent(s.parent) {
      var i :| 0 <= i < |Group(items)| && SpecsOf(Group(items))[i] == s;
      assert Group(items)[i] in Group(items);
    }
  }

  lemma ItemLinesOk(accounts: seq<Account>, ids: Index, items: seq<Item>, side: Side)
    requires forall x :: x in items ==> x.amount > 0
    requires forall s :: s in SpecsOf(items) ==> KeyOfSpec(s) in ids
    requires forall key :: key in ids ==> Serves(accounts, ids[key], key)
    ensures forall l :: l in ItemLines(ids, items, side) ==> LineOk(accounts, l) && l.side == side
  {
    forall l | l in ItemLines(ids, items, side) ensures LineOk(accounts, l) && l.side == side {
      var i :| 0 <= i < |items| && ItemLines(ids, items, side)[i] == l;
      assert items[i] in items && SpecsOf(items)[i] in SpecsOf(items);
    }
  }

  /** Assets, liabilities and capital of an opening make a postable asiento, if there are assets, amounts are positive and
      capital is. */
  lemma OpeningPostable(accounts: seq<Account>, ids: Index, p: Payload)
    requires p.assets != [] && CapitalOf(p) > 0
    requires forall x :: x in p.assets || x in p.liabilities ==> x.amount > 0
    requires forall s :: s in OpeningSpecs(p) ==> KeyOfSpec(s) in ids
    requires forall key :: key in ids ==> Serves(accounts, ids[key], key)
    ensures Postable(accounts, OpeningLines(ids, p))
  {
    var assets, liabilities := Group(p.assets), Group(p.liabilities);
    GroupPositive(p.assets);
    GroupPositive(p.liabilities);
    ItemLinesOk(accounts, ids, assets, Debit);
    ItemLinesOk(accounts, ids, liabilities, Credit);
    assert CAPITAL in OpeningSpecs(p);
    var capital := ItemLine(ids, Item(CAPITAL.parent, CAPITAL.name, CapitalOf(p)), Credit);
    OpeningBalances(ids, p);
    var lines := OpeningLines(ids, p);
    assert lines[0] == ItemLines(ids, assets, Debit)[0] && lines[0] in lines && lines[|lines| - 1] == capital;
    assert capital in lines;
  }

  lemma CapitalPositive(p: Payload)
    requires OpeningAccepted(p)
    ensures CapitalOf(p) > 0
  {
    GroupConserves(p.assets);
    GroupConserves(p.liabilities);
  }

  lemma FirstStands(b: Books, e: Entry)
    requires Inv(b) && b.entries == [e] && e.source == Opening && ChartLoaded(b) && !Closed(b.closedUntil, e.date)
    ensures Standing(b, e.date, e.date)
  {
    FirstBoundary(e);
  }

  lemma FirstPost(b: Books, date: Date, lines: seq<Line>)
    requires b.entries == [] && b.closedUntil.None? && LinesVerdict(b.accounts, lines).None?
    ensures Post(b, date, Opening, lines) == Ok(b.(entries := [Entry(1, date, Opening, lines, None)]))
  {
    assert b.entries + [Entry(1, date, Opening, lines, None)] == [Entry(1, date, Opening, lines, None)];
  }

  /** An accepted opening is posted once its accounts have been resolved. */
  lemma OpeningPosts(b: Books, p: Payload, ids: Index)
    requires b.entries == [] && b.closedUntil.None? && OpeningAccepted(p) && KnownKind(p.kind)
    requires forall s :: s in OpeningSpecs(p) ==> KeyOfSpec(s) in ids
    requires forall key :: key in ids ==> Serves(b.accounts, ids[key], key)
    ensures OpenResolved(b, p, ids) == Ok(b.(entries := [Entry(1, p.date, Opening, OpeningLines(ids, p), None)]))
  {
    CapitalPositive(p);
    OpeningPostable(b.accounts, ids, p);
    VerdictIsPostable(b.accounts, OpeningLines(ids, p));
    FirstPost(b, p.date, OpeningLines(ids, p));
  }

  lemma OpenedStands(b: Books, p: Payload)
    requires Inv(b) && b.entries == [] && b.closedUntil.None? && ChartLoaded(b)
    requires OpeningAccepted(p) && KnownKind(p.kind) && CapitalOf(p) > 0 && Resolve(b, OpeningSpecs(p)).Ok?
    ensures Open(b, p).Ok? && Standing(Open(b, p).value, p.date, p.date)
  {
    OpeningSpecsServed(b, p);
    var (ready, ids) := Resolve(b, OpeningSpecs(p)).value;
    OpeningPosts(ready, p, ids);
    assert Open(b, p) == OpenResolved(ready, p, ids);
    OpenKeeps(b, p);
    FirstStands(Open(b, p).value, Entry(1, p.date, Opening, OpeningLines(ids, p), None));
  }

  lemma OpenStands(b: Books, p: Payload)
    requires Fresh(b) && b.closedUntil.None? && ChartLoaded(b) && OpeningAccepted(p)
    ensures match Open(b, p)
            case Ok(after) => Standing(after, p.date, p.date)
            case Err(error) => AccountGuard(error) || (error == UnknownInventoryKind && !KnownKind(p.kind))
  {
    FreshInv(b);
    CapitalPositive(p);
    OpeningSpecsValid(p);
    ResolveFails(b, OpeningSpecs(p));
    if Resolve(b, OpeningSpecs(p)).Ok? && KnownKind(p.kind) {
      OpenedStands(b, p);
    }
  }

  lemma OpeningSpecsServed(b: Books, p: Payload)
    requires Inv(b) && Resolve(b, OpeningSpecs(p)).Ok?
    ensures var (ready, ids) := Resolve(b, OpeningSpecs(p)).value;
            && Inv(ready) && ready == b.(accounts := ready.accounts)
            && (forall s :: s in OpeningSpecs(p) ==> KeyOfSpec(s) in ids)
            && (forall key :: key in ids ==> Serves(ready.accounts, ids[key], key))
  {
    ResolveKeeps(b, OpeningSpecs(p));
    ResolveServes(b.accounts, OpeningSpecs(p));
  }

  /** Validator soundness. Importing any accepted payload, with any number of exercises, into a fresh company ends with
      sound books, or fails in one of these ways only: an account cannot be found or created, the balances at a
      closing are on the wrong side or nil, or the inventory kind, which the validator does not look at, is unknown.
      The capital check, the validation of lines, the period lock, and every date, chain and duplicate check of a
      closing request always pass. */
  lemma ValidatorIsSound(b: Books, p: DemoPayload)
    requires Fresh(b) && b.closedUntil.None? && ChartLoaded(b) && Accepted(p)
    ensures match Import(b, p)
            case Ok(after) => Inv(after)
            case Err(error) => StillPossible(error) || (error == UnknownInventoryKind && !KnownKind(p.opening.kind))
  {
    OpenStands(b, p.opening);
    if Open(b, p.opening).Ok? {
      var started := Open(b, p.opening).value;
      ImportExercisesStand(started, p, |p.exercises|);
      assert p.exercises[..|p.exercises|] == p.exercises;
    }
  }

  /** The validator never looks at the inventory kind. */
  lemma KindNotValidated(p: DemoPayload, kind: string)
    ensures Accepted(p) <==> Accepted(p.(opening := p.opening.(kind := kind)))
  {
    forall k: nat | k < |p.exercises| ensures ExpectedStart(p.(opening := p.opening.(kind := kind)), k) == ExpectedStart(p, k) {
      SameStart(p, kind, k);
    }
    forall k: nat | k < |p.exercises|
      ensures ExerciseAccepted(p, k) <==> ExerciseAccepted(p.(opening := p.opening.(kind := kind)), k)
    {
      SameStart(p, kind, k);
    }
  }

  lemma {:induction false} SameStart(p: DemoPayload, kind: string, k: nat)
    requires k <= |p.exercises|
    ensures ExpectedStart(p.(opening := p.opening.(kind := kind)), k) == ExpectedStart(p, k)
  {
    if k > 0 {
      SameStart(p, kind, k - 1);
    }
  }

  lemma OpenOnKind(b: Books, p: Payload)
    requires Fresh(b) && ChartLoaded(b) && OpeningAccepted(p)
    ensures Resolve(b, OpeningSpecs(p)).Err? ==> Open(b, p).Err? && AccountGuard(Open(b, p).error)
    ensures Resolve(b, OpeningSpecs(p)).Ok? && !KnownKind(p.kind) ==> Open(b, p) == Err(UnknownInventoryKind)
  {
    CapitalPositive(p);
    OpeningSpecsValid(p);
    ResolveFails(b, OpeningSpecs(p));
  }

  lemma ImportAfterOpen(b: Books, p: DemoPayload)
    requires Accepted(p) && Open(b, p.opening).Err?
    ensures OpeningAccepted(p.opening) && Import(b, p) == Err(Open(b, p.opening).error)
  {
  }

  /** An accepted payload fails on its inventory kind exactly when the kind is unknown, once its accounts are there. */
  lemma KindFailsIff(b: Books, p: DemoPayload)
    requires Fresh(b) && b.closedUntil.None? && ChartLoaded(b) && Accepted(p)
    ensures Import(b, p) == Err(UnknownInventoryKind) <==>
              !KnownKind(p.opening.kind) && Resolve(b, OpeningSpecs(p.opening)).Ok?
    ensures !KnownKind(p.opening.kind) ==> Import(b, p).Err?
  {
    assert OpeningAccepted(p.opening);
    OpenOnKind(b, p.opening);
    if Open(b, p.opening).Err? {
      ImportAfterOpen(b, p);
    }
    ValidatorIsSound(b, p);
    hide *;
    KindIsNoGuard();
  }

  lemma KindIsNoGuard()
    ensures !StillPossible(UnknownInventoryKind) && !AccountGuard(UnknownInventoryKind)
  {
  }

  /** Instance: an accepted payload of any kind, so also of an unknown one. */
  lemma AcceptedOfAnyKind(name: string, date: Date, kind: string)
    requires name != ""
    ensures Accepted(DemoPayload(name, Payload(date, kind, [Item(Code(1, 1), "Caja", 1)], []), [DemoExercise([], None)]))
  {
    var p := DemoPayload(name, Payload(date, kind, [Item(Code(1, 1), "Caja", 1)], []), [DemoExercise([], None)]);
    assert p.opening.assets[..0] == [] && Total([]) == 0;
    assert Total(p.opening.assets) == 1;
    assert ExerciseAccepted(p, 0);
  }

  /** A demo line as posted: its amount, on the side of its kind, on the company's account of its colectiva and name. */
  ghost predicate PostsDemoLine(accounts: seq<Account>, l: DemoLine, posted: Line) {
    && posted.amount == l.amount
    && (l.kind == "DEBIT" ==> posted.side == Debit) && (l.kind == "CREDIT" ==> posted.side == Credit)
    && IsAccountOf(accounts, posted.account, Spec(l.parent, l.name))
  }

  /** An entry that is imported is appended with its date and source, line by line. */
  lemma ImportedEntry(b: Books, e: DemoEntry)
    requires ImportEntry(b, e).Ok?
    ensures var after := ImportEntry(b, e).value;
            && |after.entries| == |b.entries| + 1 && b.entries <= after.entries
            && var posted := after.entries[|b.entries|];
               && posted.date == e.date && posted.source == e.source && posted.reversalOf.None?
               && |posted.lines| == |e.lines|
               && forall i :: 0 <= i < |e.lines| ==> PostsDemoLine(after.accounts, e.lines[i], posted.lines[i])
  {
    var specs := SpecsOfLines(e.lines);
    var (ready, ids) := Resolve(b, specs).value;
    KindsDiffer();
    forall i | 0 <= i < |e.lines| ensures PostsDemoLine(ready.accounts, e.lines[i], DemoLinesOf(ids, e.lines)[i]) {
      assert specs[i] in specs;
      ResolvedAccounts(b, specs, specs[i], specs[i]);
    }
  }
}
