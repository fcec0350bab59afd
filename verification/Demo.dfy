/** Demo payloads: the script of several fiscal years, already parsed, and what its static validator accepts. */
module DemoValidation {
  import opened Basics
  import opened Model
  import opened OpeningEntry
  import opened ClosingPlan

  datatype DemoLine = DemoLine(parent: Code, name: string, kind: string, amount: int)

  datatype DemoEntry = DemoEntry(date: Date, description: string, source: SourceType, lines: seq<DemoLine>)

  datatype DemoExercise = DemoExercise(entries: seq<DemoEntry>, closing: Option<Request>)

  datatype DemoPayload = DemoPayload(name: string, opening: Payload, exercises: seq<DemoExercise>)

  const OPENING_ASSETS: set<Code> :=
    {Code(1, 1), Code(1, 2), Code(1, 4), Code(1, 6), Code(1, 8), Code(1, 9), Code(1, 11), Code(1, 12), Code(1, 13),
     Code(1, 14), Code(1, 15), Code(1, 16)}

  const OPENING_LIABILITIES: set<Code> := {Code(2, 1), Code(2, 2), Code(2, 3)}

  /** The colectivas of the base chart. */
  predicate ValidParent(c: Code) {
    1 <= c.local && (
      (c.root == 1 && c.local <= 17) || (c.root == 2 && c.local <= 6) || (c.root == 3 && c.local <= 2)
      || (c.root == 4 && c.local <= 13) || (c.root == 5 && c.local <= 7))
  }

  // What is accepted.

  predicate OpeningAccepted(p: Payload) {
    && p.assets != []
    && (forall x :: x in p.assets ==> x.parent in OPENING_ASSETS && x.amount > 0)
    && (forall x :: x in p.liabilities ==> x.parent in OPENING_LIABILITIES && x.amount > 0)
    && Total(p.assets) > Total(p.liabilities)
  }

  predicate LineAccepted(l: DemoLine) {
    ValidParent(l.parent) && l.name != "" && l.amount > 0 && (l.kind == "DEBIT" || l.kind == "CREDIT")
  }

  function KindTotal(lines: seq<DemoLine>, kind: string): int {
    if lines == [] then 0
    else KindTotal(lines[..|lines| - 1], kind)
         + if lines[|lines| - 1].kind == kind then lines[|lines| - 1].amount else 0
  }

  predicate LinesAccepted(lines: seq<DemoLine>) {
    && (forall l :: l in lines ==> LineAccepted(l))
    && (exists l :: l in lines && l.kind == "DEBIT") && (exists l :: l in lines && l.kind == "CREDIT")
    && KindTotal(lines, "DEBIT") == KindTotal(lines, "CREDIT")
  }

  predicate EntryAccepted(e: DemoEntry, start: Date) {
    e.source == Manual && e.description != "" && e.date >= start && LinesAccepted(e.lines)
  }

  /** Entries of one exercise: each sound, none before its start, in order of date. */
  predicate EntriesAccepted(entries: seq<DemoEntry>, start: Date) {
    && (forall i :: 0 <= i < |entries| ==> EntryAccepted(entries[i], start))
    && (forall i :: 0 < i < |entries| ==> entries[i - 1].date <= entries[i].date)
  }

  predicate ClosingAccepted(x: DemoExercise, start: Date, last: bool) {
    match x.closing
    case None => last
    case Some(c) => c.reopening > c.closing && c.closing >= start
                    && (x.entries != [] ==> x.entries[|x.entries| - 1].date <= c.closing)
  }

  /** The date the k-th exercise starts on: the opening, or the reopening of the exercise before. */
  function ExpectedStart(p: DemoPayload, k: nat): Date
    requires k <= |p.exercises|
  {
    if k == 0 then p.opening.date
    else match p.exercises[k - 1].closing
         case Some(c) => c.reopening
         case None => ExpectedStart(p, k - 1)
  }

  predicate ExerciseAccepted(p: DemoPayload, k: nat)
    requires k < |p.exercises|
  {
    && EntriesAccepted(p.exercises[k].entries, ExpectedStart(p, k))
    && ClosingAccepted(p.exercises[k], ExpectedStart(p, k), k == |p.exercises| - 1)
  }

  predicate Accepted(p: DemoPayload) {
    && p.name != "" && p.exercises != [] && OpeningAccepted(p.opening)
    && forall k :: 0 <= k < |p.exercises| ==> ExerciseAccepted(p, k)
  }

  // The validator.

  /** `_validate_opening`. */
  method ValidateOpening(p: Payload) returns (ok: bool)
    ensures ok <==> OpeningAccepted(p)
  {
    if p.assets == [] {
      return false;
    }
    var assetsTotal, liabilitiesTotal := 0, 0;
    for i := 0 to |p.assets|
      invariant forall x :: x in p.assets[..i] ==> x.parent in OPENING_ASSETS && x.amount > 0
      invariant assetsTotal == Total(p.assets[..i])
    {
      var asset := p.assets[i];
      assert asset in p.assets;
      assert p.assets[..i + 1] == p.assets[..i] + [asset];
      TotalOfOneMore(p.assets[..i], asset);
      if asset.parent !in OPENING_ASSETS || asset.amount <= 0 {
        return false;
      }
      assetsTotal := assetsTotal + asset.amount;
    }
    for i := 0 to |p.liabilities|
      invariant forall x :: x in p.liabilities[..i] ==> x.parent in OPENING_LIABILITIES && x.amount > 0
      invariant liabilitiesTotal == Total(p.liabilities[..i])
    {
      var liability := p.liabilities[i];
      assert liability in p.liabilities;
      assert p.liabilities[..i + 1] == p.liabilities[..i] + [liability];
      TotalOfOneMore(p.liabilities[..i], liability);
      if liability.parent !in OPENING_LIABILITIES || liability.amount <= 0 {
        return false;
      }
      liabilitiesTotal := liabilitiesTotal + liability.amount;
    }
    assert p.assets[..|p.assets|] == p.assets && p.liabilities[..|p.liabilities|] == p.liabilities;
    return assetsTotal - liabilitiesTotal > 0;
  }

  /** The innermost loop of `_validate_exercise_entries`. */
  method ValidateDemoLines(lines: seq<DemoLine>) returns (ok: bool)
    ensures ok <==> LinesAccepted(lines)
  {
    if lines == [] {
      return false;
    }
    var debitTotal, creditTotal, hasDebit, hasCredit := 0, 0, false, false;
    for i := 0 to |lines|
      invariant forall l :: l in lines[..i] ==> LineAccepted(l)
      invariant debitTotal == KindTotal(lines[..i], "DEBIT") && creditTotal == KindTotal(lines[..i], "CREDIT")
      invariant hasDebit <==> exists l :: l in lines[..i] && l.kind == "DEBIT"
      invariant hasCredit <==> exists l :: l in lines[..i] && l.kind == "CREDIT"
    {
      var l := lines[i];
      assert l in lines;
      assert lines[..i + 1] == lines[..i] + [l] && lines[..i + 1][..i] == lines[..i];
      if !ValidParent(l.parent) || l.name == "" || l.amount <= 0 {
        return false;
      }
      if l.kind == "DEBIT" {
        debitTotal, hasDebit := debitTotal + l.amount, true;
      } else if l.kind == "CREDIT" {
        creditTotal, hasCredit := creditTotal + l.amount, true;
      } else {
        return false;
      }
    }
    assert lines[..|lines|] == lines;
    return hasDebit && hasCredit && debitTotal == creditTotal;
  }

  /** The loop over the entries of one exercise. */
  method ValidateDemoEntries(entries: seq<DemoEntry>, start: Date) returns (ok: bool)
    ensures ok <==> EntriesAccepted(entries, start)
  {
    var previous: Option<Date> := None;
    for i := 0 to |entries|
      invariant forall k :: 0 <= k < i ==> EntryAccepted(entries[k], start)
      invariant forall k :: 0 < k < i ==> entries[k - 1].date <= entries[k].date
      invariant previous == if i == 0 then None else Some(entries[i - 1].date)
    {
      var e := entries[i];
      if e.source != Manual || e.description == "" {
        return false;
      }
      if previous.Some? && e.date < previous.value {
        return false;
      }
      if e.date < start {
        return false;
      }
      var linesOk := ValidateDemoLines(e.lines);
      if !linesOk {
        return false;
      }
      previous := Some(e.date);
    }
    return true;
  }

  /** `_validate_exercise_entries`. */
  method ValidateExerciseEntries(p: DemoPayload) returns (ok: bool)
    ensures ok <==> forall k :: 0 <= k < |p.exercises| ==> ExerciseAccepted(p, k)
  {
    var expectedStart := p.opening.date;
    for k := 0 to |p.exercises|
      invariant forall j :: 0 <= j < k ==> ExerciseAccepted(p, j)
      invariant expectedStart == ExpectedStart(p, k)
    {
      var x := p.exercises[k];
      var entriesOk := ValidateDemoEntries(x.entries, expectedStart);
      if !entriesOk {
        assert !ExerciseAccepted(p, k);
        return false;
      }
      if x.closing.None? {
        if k != |p.exercises| - 1 {
          assert !ExerciseAccepted(p, k);
          return false;
        }
      } else {
        var c := x.closing.value;
        if c.reopening <= c.closing || c.closing < expectedStart {
          assert !ExerciseAccepted(p, k);
          return false;
        }
        if x.entries != [] && x.entries[|x.entries| - 1].date > c.closing {
          assert !ExerciseAccepted(p, k);
          return false;
        }
        expectedStart := c.reopening;
      }
    }
    return true;
  }

  /** `validate_demo_payload`. */
  method ValidateDemoPayload(p: DemoPayload) returns (ok: bool)
    ensures ok <==> Accepted(p)
  {
    if p.name == "" || p.exercises == [] {
      return false;
    }
    ok := ValidateOpening(p.opening);
    if ok {
      ok := ValidateExerciseEntries(p);
    }
  }
}

/** The importer: it replays a payload through the ordinary services. */
module DemoImport {
  import opened Basics
  import opened Model
  import opened Turnovers
  import opened Journal
  import opened AccountResolution
  import opened ClosingSupport
  import opened Exercises
  import opened OpeningEntry
  import opened Balances
  import opened ClosingPlan
  import opened ClosingExecution
  import opened ClosingTheorems
  import opened Runs
  import opened DemoValidation

  function SpecsOfLines(lines: seq<DemoLine>): seq<Spec> {
    seq(|lines|, i requires 0 <= i < |lines| => Spec(lines[i].parent, lines[i].name))
  }

  function SideOf(kind: string): Side { if kind == "DEBIT" then Debit else Credit }

  function DemoLineOf(ids: Index, l: DemoLine): Line {
    var key := KeyOfSpec(Spec(l.parent, l.name));
    Line(if key in ids then ids[key] else 0, SideOf(l.kind), l.amount)
  }

  function DemoLinesOf(ids: Index, lines: seq<DemoLine>): seq<Line> {
    seq(|lines|, i requires 0 <= i < |lines| => DemoLineOf(ids, lines[i]))
  }

  function ImportEntry(b: Books, e: DemoEntry): Result<Books> {
    var resolved :- Resolve(b, SpecsOfLines(e.lines));
    Post(resolved.0, e.date, e.source, DemoLinesOf(resolved.1, e.lines))
  }

  /** `_import_demo_journal_entries`. */
  function ImportEntries(b: Books, entries: seq<DemoEntry>): Result<Books> {
    if entries == [] then Ok(b)
    else
      var before :- ImportEntries(b, entries[..|entries| - 1]);
      ImportEntry(before, entries[|entries| - 1])
  }

  function ImportExercise(b: Books, x: DemoExercise): Result<Books> {
    var posted :- ImportEntries(b, x.entries);
    match x.closing
    case Some(req) => Execute(posted, req)
    case None => Ok(posted)
  }

  /** `_import_logical_exercises_demo_activity`. */
  function ImportExercises(b: Books, exercises: seq<DemoExercise>): Result<Books> {
    if exercises == [] then Ok(b)
    else
      var before :- ImportExercises(b, exercises[..|exercises| - 1]);
      ImportExercise(before, exercises[|exercises| - 1])
  }

  /** The replay of an accepted payload. */
  function Replay(b: Books, p: DemoPayload): Result<Books> {
    var started :- Open(b, p.opening);
    ImportExercises(started, p.exercises)
  }

  /** `import_demo_company`, from a parsed payload and a newly created company. */
  function Import(b: Books, p: DemoPayload): Result<Books> {
    if Accepted(p) then Replay(b, p) else Err(InvalidDemo)
  }

  // The import loops.

  method ResolveDemoEntryAccounts(company: Company, lines: seq<DemoLine>)
      returns (failure: Option<Error>, resolved: seq<Line>)
    modifies company
    ensures match Resolve(old(company.State()), SpecsOfLines(lines))
            case Ok(r) => failure.None? && company.State() == r.0 && resolved == DemoLinesOf(r.1, lines)
            case Err(error) => failure == Some(error)
  {
    var ids;
    resolved := [];
    failure, ids := ResolveCompanyMovementAccounts(company, SpecsOfLines(lines));
    if failure.Some? {
      return;
    }
    for i := 0 to |lines|
      invariant resolved == DemoLinesOf(ids, lines)[..i]
    {
      var l := lines[i];
      resolved := resolved + [DemoLineOf(ids, l)];
    }
    assert resolved == DemoLinesOf(ids, lines);
  }

  method ImportOneEntry(company: Company, e: DemoEntry) returns (failure: Option<Error>)
    modifies company
    ensures match ImportEntry(old(company.State()), e)
            case Ok(books) => failure.None? && company.State() == books
            case Err(error) => failure == Some(error)
  {
    var lines;
    failure, lines := ResolveDemoEntryAccounts(company, e.lines);
    if failure.None? {
      failure := CreateJournalEntry(company, e.date, e.source, lines);
    }
  }

  lemma EntriesStop(b: Books, entries: seq<DemoEntry>, i: nat)
    requires i <= |entries| && ImportEntries(b, entries[..i]).Err?
    ensures ImportEntries(b, entries) == ImportEntries(b, entries[..i])
  {
    var fold := (xs: seq<DemoEntry>) => ImportEntries(b, xs);
    assert StopsAtFailure(fold);
    FirstFailure(fold, entries, i);
  }

  lemma EntriesStep(b: Books, entries: seq<DemoEntry>, i: nat)
    requires i < |entries| && ImportEntries(b, entries[..i]).Ok?
    ensures ImportEntries(b, entries[..i + 1]) == ImportEntry(ImportEntries(b, entries[..i]).value, entries[i])
  {
    assert entries[..i + 1][..i] == entries[..i];
  }

  method ImportDemoJournalEntries(company: Company, entries: seq<DemoEntry>) returns (failure: Option<Error>)
    modifies company
    ensures match ImportEntries(old(company.State()), entries)
            case Ok(books) => failure.None? && company.State() == books
            case Err(error) => failure == Some(error)
  {
    ghost var start := company.State();
    for i := 0 to |entries|
      invariant ImportEntries(start, entries[..i]) == Ok(company.State())
    {
      EntriesStep(start, entries, i);
      failure := ImportOneEntry(company, entries[i]);
      if failure.Some? {
        EntriesStop(start, entries, i + 1);
        return;
      }
    }
    assert entries[..|entries|] == entries;
    return None;
  }

  method ImportOneExercise(company: Company, x: DemoExercise) returns (failure: Option<Error>)
    modifies company
    ensures match ImportExercise(old(company.State()), x)
            case Ok(books) => failure.None? && company.State() == books
            case Err(error) => failure == Some(error)
  {
    failure := ImportDemoJournalEntries(company, x.entries);
    if failure.None? && x.closing.Some? {
      failure := ExecuteSimplifiedClosing(company, x.closing.value);
    }
  }

  lemma ExercisesStop(b: Books, xs: seq<DemoExercise>, i: nat)
    requires i <= |xs| && ImportExercises(b, xs[..i]).Err?
    ensures ImportExercises(b, xs) == ImportExercises(b, xs[..i])
  {
    var fold := (s: seq<DemoExercise>) => ImportExercises(b, s);
    assert StopsAtFailure(fold);
    FirstFailure(fold, xs, i);
  }

  lemma ExercisesStep(b: Books, xs: seq<DemoExercise>, i: nat)
    requires i < |xs| && ImportExercises(b, xs[..i]).Ok?
    ensures ImportExercises(b, xs[..i + 1]) == ImportExercise(ImportExercises(b, xs[..i]).value, xs[i])
  {
    assert xs[..i + 1][..i] == xs[..i];
  }

  method ImportLogicalExercises(company: Company, xs: seq<DemoExercise>) returns (failure: Option<Error>)
    modifies company
    ensures match ImportExercises(old(company.State()), xs)
            case Ok(books) => failure.None? && company.State() == books
            case Err(error) => failure == Some(error)
  {
    ghost var start := company.State();
    for i := 0 to |xs|
      invariant ImportExercises(start, xs[..i]) == Ok(company.State())
    {
      ExercisesStep(start, xs, i);
      failure := ImportOneExercise(company, xs[i]);
      if failure.Some? {
        ExercisesStop(start, xs, i + 1);
        return;
      }
    }
    assert xs[..|xs|] == xs;
    return None;
  }

  /** The whole import is one atomic block. */
  method ImportDemoCompany(company: Company, p: DemoPayload) returns (failure: Option<Error>)
    modifies company
    ensures Outcome(old(company.State()), Import(old(company.State()), p), company.State(), failure)
  {
    var start := company.State();
    var valid := ValidateDemoPayload(p);
    if !valid {
      return Some(InvalidDemo);
    }
    failure := CreateOpeningEntry(company, p.opening);
    if failure.Some? {
      return;
    }
    failure := ImportLogicalExercises(company, p.exercises);
    if failure.Some? {
      company.Restore(start);
    }
  }
}
