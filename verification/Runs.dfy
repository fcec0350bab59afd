/** Runs of one company: any sequence of openings, postings, reversals, account changes and closings. */
module Runs {
  import opened Basics
  import opened Sorting
  import opened Model
  import opened Turnovers
  import opened Journal
  import opened AccountResolution
  import opened ClosingSupport
  import opened Exercises
  import opened OpeningEntry
  import opened Balances
  import opened ClosingPlan
  import opened ClosingExecution
  import opened ClosingTheorems

  /** `AddAccount` stands for a new subcuenta of this company or of another one: the table is shared. */
  datatype Step =
    | OpenCompany(payload: Payload)
    | PostManually(date: Date, source: SourceType, lines: seq<Line>)
    | ReverseEntry(number: nat, on: Date)
    | ResolveAccounts(specs: seq<Spec>)
    | AddAccount(account: Account)
    | Close(req: Request)

  function AddedAccount(b: Books, a: Account): Result<Books> {
    if a.parent !in b.chart then Err(UnknownParent)
    else if Taken(b.accounts, a.parent, a.suffix) then Err(CodeTaken)
    else if !a.Movement() then Err(NotMovement)
    else Ok(b.(accounts := b.accounts + [a]))
  }

  /** The journal endpoint admits no reserved source type. */
  function Attempt(b: Books, s: Step): Result<Books> {
    match s
    case OpenCompany(payload) => Open(b, payload)
    case PostManually(date, source, lines) =>
      if source.Reserved() then Err(ReservedSourceType) else Post(b, date, source, lines)
    case ReverseEntry(number, date) => Reverse(b, number, date)
    case ResolveAccounts(specs) =>
      var r :- Resolve(b, specs);
      Ok(r.0)
    case AddAccount(account) => AddedAccount(b, account)
    case Close(req) => Execute(b, req)
  }

  /** A step that fails rolls back. */
  function Next(b: Books, s: Step): Books {
    match Attempt(b, s)
    case Ok(after) => after
    case Err(_) => b
  }

  function Run(b: Books, steps: seq<Step>): Books {
    if steps == [] then b else Next(Run(b, steps[..|steps| - 1]), steps[|steps| - 1])
  }

  // The invariant.

  ghost predicate ChartOk(b: Books) { forall c :: c in b.chart ==> InRubro(c) }

  /** The opening is the first entry and the only one of its kind. */
  ghost predicate OpensFirst(entries: seq<Entry>) {
    forall i :: 0 <= i < |entries| ==> (entries[i].source == Opening <==> i == 0)
  }

  /** Boundaries alternate in posting order, are dated in that order, and leave the last exercise open. */
  ghost predicate Chained(bs: seq<Entry>) {
    && IsChain(bs)
    && (bs != [] ==> |bs| % 2 == 1)
    && (forall i, j :: 0 <= i < j < |bs| ==> bs[i].date <= bs[j].date && bs[i].number < bs[j].number)
    && (forall i, j :: 0 <= i < j < |bs| && bs[i].source == PatrimonialClosing ==> bs[i].date < bs[j].date)
  }

  /** The lock stands at the latest closing. */
  ghost predicate Locked(entries: seq<Entry>, closedUntil: Option<Date>) {
    && (forall e :: e in entries && e.source == PatrimonialClosing ==> Closed(closedUntil, e.date))
    && (forall e :: e in entries && e.source == PatrimonialClosing ==>
          exists last :: last in entries && last.source == PatrimonialClosing && closedUntil == Some(last.date))
  }

  /** Up to any closing date every selection of accounts nets to zero. */
  ghost predicate Zeroed(entries: seq<Entry>) {
    forall e, sel: AccountId -> bool :: e in entries && e.source == PatrimonialClosing ==>
      Net(LinesIn(entries, UpTo(e.date)), sel) == 0
  }

  /** A reversal comes after the entry it reverses and swaps its lines, and no entry is reversed twice. */
  ghost predicate ReversalsOk(entries: seq<Entry>) {
    && (forall i :: 0 <= i < |entries| && entries[i].reversalOf.Some? ==>
          && 1 <= entries[i].reversalOf.value <= i
          && entries[i].lines == Swapped(entries[entries[i].reversalOf.value - 1].lines))
    && (forall i, j :: 0 <= i < j < |entries| && entries[i].reversalOf.Some? ==> entries[i].reversalOf != entries[j].reversalOf)
  }

  /** Every closing has its snapshot, in order. */
  ghost predicate SnapshotsOk(bs: seq<Entry>, snapshots: seq<Snapshot>) {
    && |snapshots| == |bs| / 2
    && forall i :: 0 <= i < |snapshots| ==>
         && 2 * i + 2 < |bs|
         && snapshots[i].closingEntry == bs[2 * i + 1].number && snapshots[i].closingDate == bs[2 * i + 1].date
         && snapshots[i].reopeningEntry == bs[2 * i + 2].number && snapshots[i].reopeningDate == bs[2 * i + 2].date
  }

  ghost predicate Inv(b: Books) {
    && ChartOk(b) && JournalOk(b) && Numbered(b.entries) && OpensFirst(b.entries)
    && Chained(Boundaries(b.entries)) && Locked(b.entries, b.closedUntil) && Zeroed(b.entries)
    && ReversalsOk(b.entries) && SnapshotsOk(Boundaries(b.entries), b.snapshots)
  }

  /** A company before its opening: no entries; its books may already be locked up to a date. */
  ghost predicate Fresh(b: Books) {
    b.entries == [] && b.snapshots == [] && TableOk(b.accounts) && ChartOk(b)
  }

  lemma FreshInv(b: Books)
    requires Fresh(b)
    ensures Inv(b)
  {
  }

  lemma SoundOpened(b: Books)
    requires Inv(b)
    ensures HasOpening(b.entries) <==> b.entries != []
  {
    if b.entries != [] {
      assert b.entries[0] in b.entries;
    }
  }

  // What keeps the invariant.

  /** Entries dated after a date do not show up to it. */
  lemma LaterLinesHidden(entries: seq<Entry>, more: seq<Entry>, until: Date)
    requires forall e :: e in more ==> e.date > until
    ensures LinesIn(entries + more, UpTo(until)) == LinesIn(entries, UpTo(until))
  {
    LinesInConcat(entries, more, UpTo(until));
    NoLines(more, UpTo(until));
  }

  lemma ZeroedStays(entries: seq<Entry>, more: seq<Entry>, closedUntil: Option<Date>)
    requires Zeroed(entries) && Locked(entries, closedUntil)
    requires forall e :: e in more ==> !Closed(closedUntil, e.date) && e.source != PatrimonialClosing
    ensures Zeroed(entries + more) && Locked(entries + more, closedUntil)
  {
    forall e, sel: AccountId -> bool | e in entries + more && e.source == PatrimonialClosing
      ensures Net(LinesIn(entries + more, UpTo(e.date)), sel) == 0
    {
      LaterLinesHidden(entries, more, e.date);
    }
  }

  lemma OneMoreBoundary(entries: seq<Entry>, e: Entry)
    ensures Boundaries(entries + [e]) == Boundaries(entries) + if e.source.Boundary() then [e] else []
  {
    assert (entries + [e])[..|entries|] == entries;
  }

  lemma AppendIsSound(entries: seq<Entry>, e: Entry)
    requires Numbered(entries) && OpensFirst(entries) && entries != []
    requires e.number == |entries| + 1 && e.source != Opening
    ensures Numbered(entries + [e]) && OpensFirst(entries + [e])
  {
  }

  lemma JournalOfOneMore(b: Books, e: Entry)
    requires JournalOk(b) && Postable(b.accounts, e.lines)
    ensures JournalOk(b.(entries := b.entries + [e]))
  {
  }

  /** Posting one ordinary entry keeps everything. */
  lemma AppendKeeps(b: Books, e: Entry)
    requires Inv(b) && b.entries != [] && !e.source.Boundary()
    requires e.number == |b.entries| + 1 && !Closed(b.closedUntil, e.date) && Postable(b.accounts, e.lines)
    requires ReversalsOk(b.entries + [e])
    ensures Inv(b.(entries := b.entries + [e]))
  {
    AppendIsSound(b.entries, e);
    JournalOfOneMore(b, e);
    NoNewBoundary(b.entries, e);
    ZeroedStays(b.entries, [e], b.closedUntil);
  }

  lemma NoNewBoundary(entries: seq<Entry>, e: Entry)
    requires !e.source.Boundary()
    ensures Boundaries(entries + [e]) == Boundaries(entries)
  {
    OneMoreBoundary(entries, e);
  }

  lemma OpenedIff(entries: seq<Entry>)
    requires OpensFirst(entries)
    ensures HasOpening(entries) <==> entries != []
  {
    if entries != [] {
      assert entries[0] in entries;
    }
  }

  lemma PostShape(b: Books, date: Date, source: SourceType, lines: seq<Line>)
    requires Numbered(b.entries) && Post(b, date, source, lines).Ok?
    ensures Post(b, date, source, lines).value
         == b.(entries := b.entries + [Entry(|b.entries| + 1, date, source, lines, None)])
    ensures !Closed(b.closedUntil, date) && Postable(b.accounts, lines)
    ensures source == Opening ==> b.entries == []
    ensures source != Opening ==> b.entries != []
  {
    VerdictIsPostable(b.accounts, lines);
    NextNumber(b.entries);
  }

  lemma PlainKeepsReversals(entries: seq<Entry>, e: Entry)
    requires ReversalsOk(entries) && e.reversalOf.None?
    ensures ReversalsOk(entries + [e])
  {
  }

  lemma PostKeeps(b: Books, date: Date, source: SourceType, lines: seq<Line>)
    requires Inv(b) && !source.Reserved() && Post(b, date, source, lines).Ok?
    ensures Inv(Post(b, date, source, lines).value)
  {
    PostShape(b, date, source, lines);
    var e := Entry(|b.entries| + 1, date, source, lines, None);
    PlainKeepsReversals(b.entries, e);
    AppendKeeps(b, e);
  }

  lemma ReverseShape(b: Books, number: nat, date: Date)
    requires Numbered(b.entries) && Reverse(b, number, date).Ok?
    ensures 1 <= number <= |b.entries| && b.entries[number - 1].number == number
    ensures Reverse(b, number, date).value
         == b.(entries := b.entries + [Entry(|b.entries| + 1, date, Other, Swapped(b.entries[number - 1].lines), Some(number))])
    ensures !Closed(b.closedUntil, date) && !b.entries[number - 1].source.Reserved()
    ensures forall e :: e in b.entries ==> e.reversalOf != Some(number)
  {
    var original := Find(b.entries, number);
    var i :| 0 <= i < |b.entries| && b.entries[i] == original;
    NextNumber(b.entries);
  }

  lemma ReversalKeepsReversals(entries: seq<Entry>, number: nat, e: Entry)
    requires ReversalsOk(entries) && 1 <= number <= |entries| && e.reversalOf == Some(number)
    requires e.lines == Swapped(entries[number - 1].lines)
    requires forall x :: x in entries ==> x.reversalOf != Some(number)
    ensures ReversalsOk(entries + [e])
  {
    forall j | 0 <= j < |entries| ensures entries[j].reversalOf != Some(number) {
      assert entries[j] in entries;
    }
  }

  lemma ReverseKeeps(b: Books, number: nat, date: Date)
    requires Inv(b) && Reverse(b, number, date).Ok?
    ensures Inv(Reverse(b, number, date).value)
  {
    ReverseShape(b, number, date);
    var original := b.entries[number - 1];
    assert original in b.entries;
    SwappedPostable(b.accounts, original.lines);
    var e := Entry(|b.entries| + 1, date, Other, Swapped(original.lines), Some(number));
    ReversalKeepsReversals(b.entries, number, e);
    AppendKeeps(b, e);
  }

  /** Accounts may be added and linked without touching the journal. */
  lemma AccountsKeep(b: Books, after: Books)
    requires Inv(b) && TableOk(after.accounts) && Grows(b.accounts, after.accounts) && ChartOk(after)
    requires after == b.(accounts := after.accounts, chart := after.chart)
    ensures Inv(after)
  {
    forall e | e in b.entries ensures Postable(after.accounts, e.lines) {
      PostableGrows(b.accounts, after.accounts, e.lines);
    }
  }

  lemma ResolveKeeps(b: Books, specs: seq<Spec>)
    requires Inv(b) && Resolve(b, specs).Ok?
    ensures Inv(Resolve(b, specs).value.0) && Grows(b.accounts, Resolve(b, specs).value.0.accounts)
  {
    assert forall s :: s in specs ==> InRubro(s.parent);
    ResolveServes(b.accounts, specs);
    AccountsKeep(b, Resolve(b, specs).value.0);
  }

  lemma AddAccountKeeps(b: Books, a: Account)
    requires Inv(b) && AddedAccount(b, a).Ok?
    ensures Inv(AddedAccount(b, a).value)
  {
    var after := AddedAccount(b, a).value;
    forall i | 0 <= i < |b.accounts| ensures after.accounts[i].parent != a.parent || after.accounts[i].suffix != a.suffix {
      assert b.accounts[i] in b.accounts;
    }
    AccountsKeep(b, after);
  }

  lemma FirstIsSound(e: Entry, closedUntil: Option<Date>)
    requires e.number == 1 && e.source == Opening && e.reversalOf.None?
    ensures Numbered([e]) && OpensFirst([e]) && Locked([e], closedUntil) && Zeroed([e]) && ReversalsOk([e])
  {
  }

  lemma FirstEntryKeeps(b: Books, e: Entry)
    requires Inv(b) && b.entries == [] && e.number == 1 && e.source == Opening && e.reversalOf.None?
    requires Postable(b.accounts, e.lines)
    ensures Inv(b.(entries := [e]))
  {
    FirstBoundary(e);
    FirstIsSound(e, b.closedUntil);
  }

  lemma FirstBoundary(e: Entry)
    requires e.source == Opening
    ensures Boundaries([e]) == [e] && Chained([e])
  {
    assert [] + [e] == [e];
    OneMoreBoundary([], e);
  }

  lemma FirstPostKeeps(b: Books, date: Date, lines: seq<Line>)
    requires Inv(b) && Post(b, date, Opening, lines).Ok?
    ensures Inv(Post(b, date, Opening, lines).value)
  {
    PostShape(b, date, Opening, lines);
    var e := Entry(1, date, Opening, lines, None);
    FirstEntryKeeps(b, e);
    assert [] + [e] == [e];
  }

  lemma OpenKeeps(b: Books, payload: Payload)
    requires Inv(b) && Open(b, payload).Ok?
    ensures Inv(Open(b, payload).value)
  {
    ResolveKeeps(b, OpeningSpecs(payload));
    var (ready, ids) := Resolve(b, OpeningSpecs(payload)).value;
    FirstPostKeeps(ready, payload.date, OpeningLines(ids, payload));
  }

  // The exercises of a sound journal.

  /** Boundaries of a sound journal are already in the order the scan sorts them into. */
  lemma ScannedIsPosted(entries: seq<Entry>)
    requires Chained(Boundaries(entries))
    ensures Scanned(entries) == Boundaries(entries)
  {
    SortedIsFixed(Boundaries(entries), EntryRank);
  }

  lemma {:induction false} FirstBoundaryIsOpening(entries: seq<Entry>)
    requires OpensFirst(entries)
    ensures Boundaries(entries) == [] <==> entries == []
  {
    if entries != [] {
      BoundariesAre(entries);
      assert entries[0] in entries;
      assert entries[0] in Boundaries(entries);
    }
  }

  lemma SnapshotsFound(bs: seq<Entry>, snapshots: seq<Snapshot>)
    requires Chained(bs) && SnapshotsOk(bs, snapshots)
    ensures var xs := ExercisesOf(bs, snapshots);
            forall i :: 0 <= i < |xs| - 1 ==> xs[i].snapshot == Some(i)
  {
    var xs := ExercisesOf(bs, snapshots);
    forall i | 0 <= i < |xs| - 1 ensures xs[i].snapshot == Some(i) {
      SnapshotFound(bs, snapshots, |snapshots|, i);
      assert snapshots[..|snapshots|] == snapshots;
      assert xs[i] == ExerciseAt(bs, snapshots, i);
    }
  }

  /** An open exercise that started on a date. */
  predicate InProgress(current: Option<Exercise>, since: Date) {
    current.Some? && current.value.Open() && current.value.start == since
  }

  lemma OnlyLastOpen(bs: seq<Entry>, snapshots: seq<Snapshot>)
    requires Chained(bs) && bs != []
    ensures var xs := ExercisesOf(bs, snapshots);
            && xs != [] && (forall i :: 0 <= i < |xs| ==> (xs[i].Open() <==> i == |xs| - 1))
            && Current(xs) == Some(xs[|xs| - 1])
    ensures InProgress(Current(ExercisesOf(bs, snapshots)), bs[|bs| - 1].date)
  {
    var xs := ExercisesOf(bs, snapshots);
    assert forall i :: 0 <= i < |xs| ==> xs[i] == ExerciseAt(bs, snapshots, i);
  }

  /** Exercises that do not overlap, each closed one with its snapshot and only the last one open. */
  ghost predicate SoundExercises(xs: seq<Exercise>) {
    && InOrder(xs)
    && (forall i :: 0 <= i < |xs| ==> (xs[i].Open() <==> i == |xs| - 1))
    && (forall i :: 0 <= i < |xs| - 1 ==> xs[i].snapshot == Some(i))
  }

  lemma ChainedExercises(bs: seq<Entry>, snapshots: seq<Snapshot>)
    requires Chained(bs) && SnapshotsOk(bs, snapshots)
    ensures SoundExercises(ExercisesOf(bs, snapshots))
  {
    ExercisesInOrder(bs, snapshots);
    SnapshotsFound(bs, snapshots);
    if bs != [] {
      OnlyLastOpen(bs, snapshots);
    }
  }

  lemma ListedExercises(b: Books)
    requires Chained(Boundaries(b.entries)) && OpensFirst(b.entries)
    ensures LogicalExercises(b) == Ok(ExercisesOf(Boundaries(b.entries), b.snapshots))
    ensures Boundaries(b.entries) == [] <==> b.entries == []
  {
    ScannedIsPosted(b.entries);
    FirstBoundaryIsOpening(b.entries);
  }

  /** The scan of a sound journal never raises, and the exercises it returns are sound. */
  lemma ExercisesOfSoundBooks(b: Books)
    requires Inv(b)
    ensures LogicalExercises(b) == Ok(ExercisesOf(Boundaries(b.entries), b.snapshots))
    ensures SoundExercises(LogicalExercises(b).value)
    ensures LogicalExercises(b).value == [] <==> b.entries == []
  {
    ListedExercises(b);
    ChainedExercises(Boundaries(b.entries), b.snapshots);
  }

  /** An opened company has an exercise in progress: the last one, open since the last boundary. */
  lemma ExerciseInProgress(b: Books)
    requires Inv(b) && b.entries != []
    ensures LogicalExercises(b).Ok? && Boundaries(b.entries) != []
    ensures InProgress(Current(LogicalExercises(b).value), Boundaries(b.entries)[|Boundaries(b.entries)| - 1].date)
  {
    ListedExercises(b);
    OnlyLastOpen(Boundaries(b.entries), b.snapshots);
  }

  lemma ExercisesInOrder(bs: seq<Entry>, snapshots: seq<Snapshot>)
    requires Chained(bs)
    ensures InOrder(ExercisesOf(bs, snapshots))
  {
    var xs := ExercisesOf(bs, snapshots);
    forall i, j | 0 <= i < j < |xs| ensures xs[i].closing.Some? && xs[i].closing.value < xs[j].start {
      assert bs[2 * i + 1].source == PatrimonialClosing;
    }
  }

  /** The i-th snapshot is the one found for the i-th closing. */
  lemma {:induction false} SnapshotFound(bs: seq<Entry>, snapshots: seq<Snapshot>, n: nat, i: nat)
    requires Chained(bs) && SnapshotsOk(bs, snapshots) && i < n <= |snapshots|
    ensures SnapshotOf(snapshots[..n], bs[2 * i + 1].number) == Some(i)
  {
    if i < n - 1 {
      assert snapshots[..n][..n - 1] == snapshots[..n - 1];
      assert bs[2 * i + 1].number < bs[2 * (n - 1) + 1].number;
      SnapshotFound(bs, snapshots, n - 1, i);
    }
  }

  // Closing keeps the invariant.

  lemma {:induction false} AppendAllKeeps(b: Books, more: seq<Entry>)
    requires Inv(b) && b.entries != []
    requires forall i :: 0 <= i < |more| ==>
               && !more[i].source.Boundary() && more[i].number == |b.entries| + 1 + i && more[i].reversalOf.None?
               && !Closed(b.closedUntil, more[i].date) && Postable(b.accounts, more[i].lines)
    ensures Inv(b.(entries := b.entries + more))
    ensures Boundaries(b.entries + more) == Boundaries(b.entries)
  {
    if more == [] {
      assert b.entries + more == b.entries;
    } else {
      var n := |more| - 1;
      AppendAllKeeps(b, more[..n]);
      var mid := b.(entries := b.entries + more[..n]);
      PlainKeepsReversals(mid.entries, more[n]);
      AppendKeeps(mid, more[n]);
      OneMoreBoundary(mid.entries, more[n]);
      SplitLast(b.entries, more);
    }
  }

  lemma SplitLast(entries: seq<Entry>, more: seq<Entry>)
    requires more != []
    ensures entries + more == (entries + more[..|more| - 1]) + [more[|more| - 1]]
  {
  }

  lemma PlainKeepReversals(entries: seq<Entry>, p: Entry, r: Entry)
    requires ReversalsOk(entries) && p.reversalOf.None? && r.reversalOf.None?
    ensures ReversalsOk(entries + [p, r])
  {
  }

  lemma OpensFirstOnward(entries: seq<Entry>, p: Entry, r: Entry)
    requires OpensFirst(entries) && entries != [] && p.source != Opening && r.source != Opening
    ensures OpensFirst(entries + [p, r])
  {
  }

  lemma TwoMoreBoundaries(entries: seq<Entry>, p: Entry, r: Entry)
    requires p.source.Boundary() && r.source.Boundary()
    ensures Boundaries(entries + [p, r]) == Boundaries(entries) + [p, r]
  {
    OneMoreBoundary(entries, p);
    OneMoreBoundary(entries + [p], r);
    assert entries + [p] + [r] == entries + [p, r];
  }

  lemma ChainedOnward(bs: seq<Entry>, p: Entry, r: Entry)
    requires Chained(bs) && bs != [] && p.source == PatrimonialClosing && r.source == Reopening
    requires bs[|bs| - 1].date <= p.date < r.date && bs[|bs| - 1].number < p.number < r.number
    ensures Chained(bs + [p, r])
  {
    var more := bs + [p, r];
    forall i, j | 0 <= i < j < |more|
      ensures more[i].date <= more[j].date && more[i].number < more[j].number
      ensures more[i].source == PatrimonialClosing ==> more[i].date < more[j].date
    {
      if i < |bs| {
        assert bs[i].date <= bs[|bs| - 1].date && bs[i].number <= bs[|bs| - 1].number;
        if i < |bs| - 1 && more[i].source == PatrimonialClosing {
          assert bs[i].date < bs[|bs| - 1].date;
        }
      }
    }
  }

  lemma SealKeepsZero(entries: seq<Entry>, closedUntil: Option<Date>, p: Entry, r: Entry)
    requires Zeroed(entries) && Locked(entries, closedUntil) && !Closed(closedUntil, p.date)
    requires p.source == PatrimonialClosing && r.source == Reopening && p.date < r.date
    requires forall sel: AccountId -> bool :: Net(LinesIn(entries + [p, r], UpTo(p.date)), sel) == 0
    ensures Zeroed(entries + [p, r]) && Locked(entries + [p, r], Some(p.date))
  {
    var after := entries + [p, r];
    forall e, sel: AccountId -> bool | e in after && e.source == PatrimonialClosing
      ensures Net(LinesIn(after, UpTo(e.date)), sel) == 0
    {
      if e != p {
        LaterLinesHidden(entries, [p, r], e.date);
      }
    }
    assert p in after;
  }

  lemma SnapshotsOnward(bs: seq<Entry>, snapshots: seq<Snapshot>, p: Entry, r: Entry, s: Snapshot)
    requires Chained(bs) && bs != [] && SnapshotsOk(bs, snapshots)
    requires s.closingEntry == p.number && s.closingDate == p.date
    requires s.reopeningEntry == r.number && s.reopeningDate == r.date
    ensures SnapshotsOk(bs + [p, r], snapshots + [s])
  {
  }

  lemma NumbersOnward(entries: seq<Entry>, p: Entry, r: Entry)
    requires Numbered(entries) && p.number == |entries| + 1 && r.number == |entries| + 2
    ensures Numbered(entries + [p, r])
    ensures forall e :: e in entries ==> e.number < p.number
  {
  }

  lemma JournalOnward(b: Books, p: Entry, r: Entry, after: Books)
    requires JournalOk(b) && after.accounts == b.accounts && after.entries == b.entries + [p, r]
    requires Postable(b.accounts, p.lines) && Postable(b.accounts, r.lines)
    ensures JournalOk(after)
  {
  }

  /** `after` is `b` ended with a patrimonial closing, a reopening and their snapshot. */
  ghost predicate Seals(b: Books, p: Entry, r: Entry, s: Snapshot, after: Books) {
    && p.source == PatrimonialClosing && r.source == Reopening && p.reversalOf.None? && r.reversalOf.None?
    && p.number == |b.entries| + 1 && r.number == |b.entries| + 2
    && !Closed(b.closedUntil, p.date) && p.date < r.date && Postable(b.accounts, p.lines)
    && Postable(b.accounts, r.lines)
    && (forall e :: e in b.entries ==> e.date <= p.date)
    && s.closingEntry == p.number && s.closingDate == p.date && s.reopeningEntry == r.number
    && s.reopeningDate == r.date
    && after == b.(entries := b.entries + [p, r], closedUntil := Some(p.date), snapshots := b.snapshots + [s])
  }

  /** Sealing books with a patrimonial closing and a reopening keeps the invariant. */
  lemma SealKeeps(b: Books, p: Entry, r: Entry, s: Snapshot, after: Books)
    requires Inv(b) && b.entries != [] && Seals(b, p, r, s, after)
    requires forall sel: AccountId -> bool :: Net(LinesIn(after.entries, UpTo(p.date)), sel) == 0
    ensures Inv(after)
  {
    var bs := Boundaries(b.entries);
    FirstBoundaryIsOpening(b.entries);
    BoundariesAre(b.entries);
    assert bs[|bs| - 1] in bs;
    TwoMoreBoundaries(b.entries, p, r);
    NumbersOnward(b.entries, p, r);
    ChainedOnward(bs, p, r);
    SealKeepsZero(b.entries, b.closedUntil, p, r);
    SnapshotsOnward(bs, b.snapshots, p, r, s);
    JournalOnward(b, p, r, after);
    OpensFirstOnward(b.entries, p, r);
    PlainKeepReversals(b.entries, p, r);
  }

  // Every step keeps the invariant.

  lemma CloseKeeps(b: Books, req: Request)
    requires Inv(b) && Execute(b, req).Ok?
    ensures Inv(Execute(b, req).value)
  {
    var support, plan := ExecuteCloses(b, req);
    ClosedKeeps(b, req, support, plan, Execute(b, req).value);
  }

  lemma SupportKeeps(b: Books, accounts: seq<Account>)
    requires Inv(b) && TableOk(accounts) && b.accounts <= accounts
    ensures Inv(b.(accounts := accounts, chart := b.chart + CLOSING_PARENTS))
  {
    AccountsKeep(b, b.(accounts := accounts, chart := b.chart + CLOSING_PARENTS));
  }

  lemma EarlyKeeps(b: Books, support: Index, drafts: seq<Draft>, date: Date)
    requires Inv(b) && b.entries != [] && !Closed(b.closedUntil, date)
    requires forall d :: d in drafts ==> Postable(b.accounts, Resolved(support, d.lines))
    requires forall d :: d in drafts ==> d.date == date && (d.source == Adjustment || d.source == ResultClosing)
    ensures Inv(b.(entries := b.entries + Posted(support, drafts, |b.entries|)))
  {
    var more := Posted(support, drafts, |b.entries|);
    forall i | 0 <= i < |more|
      ensures !more[i].source.Boundary() && more[i].number == |b.entries| + 1 + i && more[i].reversalOf.None?
      ensures !Closed(b.closedUntil, more[i].date) && Postable(b.accounts, more[i].lines)
    {
      assert drafts[i] in drafts;
    }
    AppendAllKeeps(b, more);
  }

  /** The books midway through a closing are sound too. */
  lemma MidwayKeeps(b: Books, req: Request, support: Index, plan: Plan, after: Books)
    requires Inv(b) && Closes(b, req, support, plan, after)
    ensures b.entries != [] && LastNumber(b.entries) == |b.entries|
    ensures Inv(Midway(b, support, plan, after))
  {
    NextNumber(b.entries);
    OpenedIff(b.entries);
    SupportKeeps(b, after.accounts);
    EarlyPostable(b, req, support, plan, after);
    EarlyKeeps(b.(accounts := after.accounts, chart := b.chart + CLOSING_PARENTS), support, Early(plan), req.closing);
  }

  lemma SealingPostable(b: Books, req: Request, support: Index, plan: Plan, after: Books)
    requires Closes(b, req, support, plan, after)
    ensures Postable(after.accounts, Resolved(support, plan.patrimonial.lines))
    ensures Postable(after.accounts, Resolved(support, plan.reopening.lines))
  {
    assert plan.patrimonial in plan.Drafts() && plan.reopening in plan.Drafts();
  }

  /** The books midway through a closing. */
  function Midway(b: Books, support: Index, plan: Plan, after: Books): Books {
    b.(accounts := after.accounts, chart := b.chart + CLOSING_PARENTS, entries := MidwayEntries(b.entries, plan, support))
  }

  lemma ClosesSeals(b: Books, req: Request, support: Index, plan: Plan, after: Books)
    requires Closes(b, req, support, plan, after) && LastNumber(b.entries) == |b.entries|
    ensures Seals(Midway(b, support, plan, after), ClosingEntry(b.entries, plan, support),
                  ReopeningEntry(b.entries, plan, support), after.snapshots[|b.snapshots|], after)
  {
    MidwayDates(b, req, support, plan, after);
    AfterEntries(b.entries, support, plan);
    SealingPostable(b, req, support, plan, after);
    MidwayCount(b.entries, support, plan);
  }

  lemma MidwayCount(entries: seq<Entry>, support: Index, plan: Plan)
    ensures |MidwayEntries(entries, plan, support)| == |entries| + |Early(plan)|
    ensures |plan.Drafts()| == |Early(plan)| + 2
  {
  }

  lemma ClosedKeeps(b: Books, req: Request, support: Index, plan: Plan, after: Books)
    requires Inv(b) && Closes(b, req, support, plan, after)
    ensures Inv(after)
  {
    MidwayKeeps(b, req, support, plan, after);
    ClosesSeals(b, req, support, plan, after);
    forall sel: AccountId -> bool ensures Net(LinesIn(after.entries, UpTo(req.closing)), sel) == 0 {
      ClosesToZero(b, req, support, plan, after, sel);
    }
    SealKeeps(Midway(b, support, plan, after), ClosingEntry(b.entries, plan, support),
              ReopeningEntry(b.entries, plan, support), after.snapshots[|b.snapshots|], after);
  }

  lemma NextKeeps(b: Books, s: Step)
    requires Inv(b)
    ensures Inv(Next(b, s))
  {
    if Attempt(b, s).Ok? {
      match s
      case OpenCompany(payload) => OpenKeeps(b, payload);
      case PostManually(date, source, lines) => PostKeeps(b, date, source, lines);
      case ReverseEntry(number, date) => ReverseKeeps(b, number, date);
      case ResolveAccounts(specs) => ResolveKeeps(b, specs);
      case AddAccount(account) => AddAccountKeeps(b, account);
      case Close(req) => CloseKeeps(b, req);
    }
  }

  /** The invariant holds in every reachable state. */
  lemma {:induction false} RunKeeps(b: Books, steps: seq<Step>)
    requires Inv(b)
    ensures Inv(Run(b, steps))
  {
    if steps != [] {
      RunKeeps(b, steps[..|steps| - 1]);
      NextKeeps(Run(b, steps[..|steps| - 1]), steps[|steps| - 1]);
    }
  }

  /** The error of a posting, in sound books, before its lines are looked at. */
  lemma PostErrors(b: Books, date: Date, source: SourceType, lines: seq<Line>)
    requires Inv(b)
    ensures var r := Post(b, date, source, lines);
            if source == Opening && b.entries != [] then r == Err(AlreadyOpened)
            else if source != Opening && b.entries == [] then r == Err(NotOpened)
            else if Closed(b.closedUntil, date) then r == Err(PeriodClosed)
            else r.Ok? <==> Postable(b.accounts, lines)
  {
    OpenedIff(b.entries);
    VerdictIsPostable(b.accounts, lines);
  }
}
