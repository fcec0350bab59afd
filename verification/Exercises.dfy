/** Logical exercises: fiscal periods inferred from the boundary entries of the journal. */
module Exercises {
  import opened Basics
  import opened Sorting
  import opened Model

  datatype Exercise = Exercise(index: nat, openingEntry: nat, openingSource: SourceType, start: Date,
                               closingEntry: Option<nat>, closing: Option<Date>, snapshot: Option<nat>)
  {
    predicate Open() { closing.None? }
    predicate Covers(d: Date) { start <= d && (closing.Some? ==> d <= closing.value) }
  }

  function Boundaries(entries: seq<Entry>): seq<Entry> {
    if entries == [] then []
    else
      var n := |entries| - 1;
      Boundaries(entries[..n]) + if entries[n].source.Boundary() then [entries[n]] else []
  }

  function EntryRank(e: Entry): (int, int) { (e.date, e.number) }

  /** The boundary entries ordered by date and number, as the scan reads them. */
  function Scanned(entries: seq<Entry>): seq<Entry> { Sort(Boundaries(entries), EntryRank) }

  /** The type the i-th boundary must have: one opening, then closings and reopenings in turn. */
  function Expected(i: nat): SourceType {
    if i == 0 then Opening else if i % 2 == 1 then PatrimonialClosing else Reopening
  }

  predicate IsChain(bs: seq<Entry>) {
    forall i :: 0 <= i < |bs| ==> bs[i].source == Expected(i)
  }

  /** The snapshot of a closing entry; of two rows for one entry the later counts. */
  function SnapshotOf(snapshots: seq<Snapshot>, closingEntry: nat): Option<nat> {
    if snapshots == [] then None
    else
      var n := |snapshots| - 1;
      if snapshots[n].closingEntry == closingEntry then Some(n) else SnapshotOf(snapshots[..n], closingEntry)
  }

  function ExerciseAt(bs: seq<Entry>, snapshots: seq<Snapshot>, i: nat): Exercise
    requires 2 * i < |bs|
  {
    var opening := bs[2 * i];
    if 2 * i + 1 < |bs| then
      var closing := bs[2 * i + 1];
      Exercise(i + 1, opening.number, opening.source, opening.date, Some(closing.number), Some(closing.date),
               SnapshotOf(snapshots, closing.number))
    else Exercise(i + 1, opening.number, opening.source, opening.date, None, None, None)
  }

  /** Consecutive boundaries paired up, a last one left over standing for the open exercise. */
  function ExercisesOf(bs: seq<Entry>, snapshots: seq<Snapshot>): seq<Exercise> {
    seq((|bs| + 1) / 2, i requires 0 <= i < (|bs| + 1) / 2 => ExerciseAt(bs, snapshots, i))
  }

  /** `_build_logical_exercises`, as a condition on the boundaries and a pairing of them. */
  function LogicalExercises(b: Books): Result<seq<Exercise>> {
    var bs := Scanned(b.entries);
    if !IsChain(bs) then Err(InvalidChain)
    else if b.entries != [] && bs == [] then Err(NoChain)
    else Ok(ExercisesOf(bs, b.snapshots))
  }

  /** The scan of `_build_logical_exercises`. */
  method ScanBoundaries(bs: seq<Entry>, snapshots: seq<Snapshot>) returns (r: Result<seq<Exercise>>)
    requires forall e :: e in bs ==> e.source.Boundary()
    ensures r == if IsChain(bs) then Ok(ExercisesOf(bs, snapshots)) else Err(InvalidChain)
  {
    var exercises: seq<Exercise> := [];
    var current: Option<Entry> := None;
    var seenOpening := false;
    for i := 0 to |bs|
      invariant forall k :: 0 <= k < i ==> bs[k].source == Expected(k)
      invariant seenOpening <==> i > 0
      invariant current == if i % 2 == 1 then Some(bs[i - 1]) else None
      invariant |exercises| == i / 2
      invariant forall k :: 0 <= k < i / 2 ==> exercises[k] == ExerciseAt(bs, snapshots, k)
    {
      var entry := bs[i];
      assert entry in bs;
      if entry.source == Opening {
        if seenOpening || current.Some? || exercises != [] {
          return Err(InvalidChain);
        }
        seenOpening, current := true, Some(entry);
      } else if entry.source == Reopening {
        if !seenOpening || current.Some? {
          return Err(InvalidChain);
        }
        current := Some(entry);
      } else {
        if current.None? {
          return Err(InvalidChain);
        }
        var opening := current.value;
        exercises := exercises + [Exercise(|exercises| + 1, opening.number, opening.source, opening.date,
                                           Some(entry.number), Some(entry.date), SnapshotOf(snapshots, entry.number))];
        current := None;
      }
    }
    if current.Some? {
      var opening := current.value;
      exercises := exercises + [Exercise(|exercises| + 1, opening.number, opening.source, opening.date, None, None, None)];
    }
    assert exercises == ExercisesOf(bs, snapshots);
    return Ok(exercises);
  }

  method BuildLogicalExercises(b: Books) returns (r: Result<seq<Exercise>>)
    ensures r == LogicalExercises(b)
  {
    BoundariesAre(b.entries);
    SortMembers(Boundaries(b.entries), EntryRank);
    r := ScanBoundaries(Scanned(b.entries), b.snapshots);
    if r.Ok? && b.entries != [] && r.value == [] {
      return Err(NoChain);
    }
  }

  lemma {:induction false} BoundariesAre(entries: seq<Entry>)
    ensures forall e :: e in Boundaries(entries) <==> e in entries && e.source.Boundary()
  {
    if entries != [] {
      var n := |entries| - 1;
      BoundariesAre(entries[..n]);
      assert entries == entries[..n] + [entries[n]];
    }
  }

  // The scan as a parser.

  /** What a boundary entry contributes to the exercises. */
  datatype Mark = Mark(source: SourceType, number: nat, date: Date)

  function MarkOf(e: Entry): Mark { Mark(e.source, e.number, e.date) }

  function MarksOf(bs: seq<Entry>): seq<Mark> { seq(|bs|, i requires 0 <= i < |bs| => MarkOf(bs[i])) }

  /** The boundaries of an exercise. */
  function MarksOfExercise(x: Exercise): seq<Mark> {
    [Mark(x.openingSource, x.openingEntry, x.start)]
    + if x.closing.Some? && x.closingEntry.Some?
      then [Mark(PatrimonialClosing, x.closingEntry.value, x.closing.value)] else []
  }

  /** The exercises written back as boundaries. */
  function Flatten(exercises: seq<Exercise>): seq<Mark> {
    if exercises == [] then []
    else
      var n := |exercises| - 1;
      Flatten(exercises[..n]) + MarksOfExercise(exercises[n])
  }

  lemma LastExercise(bs: seq<Entry>, snapshots: seq<Snapshot>)
    requires bs != [] && IsChain(bs)
    ensures var xs := ExercisesOf(bs, snapshots);
            var n := |xs| - 1;
            && n >= 0 && 2 * n < |bs|
            && xs[..n] == ExercisesOf(bs[..2 * n], snapshots)
            && MarksOf(bs[2 * n..]) == MarksOfExercise(xs[n])
  {
    var n := |ExercisesOf(bs, snapshots)| - 1;
    if |bs| == 2 * n + 2 {
      assert bs[2 * n + 1].source == PatrimonialClosing;
    }
  }

  lemma MarksSplit(bs: seq<Entry>, k: nat)
    requires k <= |bs|
    ensures MarksOf(bs) == MarksOf(bs[..k]) + MarksOf(bs[k..])
  {
  }

  /** Flattening the exercises gives the scanned boundaries back. */
  lemma {:induction false} FlattenInverts(bs: seq<Entry>, snapshots: seq<Snapshot>)
    requires IsChain(bs)
    ensures Flatten(ExercisesOf(bs, snapshots)) == MarksOf(bs)
    decreases |bs|
  {
    if bs != [] {
      var n := |ExercisesOf(bs, snapshots)| - 1;
      LastExercise(bs, snapshots);
      FlattenInverts(bs[..2 * n], snapshots);
      MarksSplit(bs, 2 * n);
    }
  }

  /** The exercises of a chain are numbered from 1, start at an opening, and only the last may be open. */
  ghost predicate WellIndexed(xs: seq<Exercise>) {
    forall i :: 0 <= i < |xs| ==>
      && xs[i].index == i + 1
      && xs[i].openingSource == (if i == 0 then Opening else Reopening)
      && (xs[i].closing.Some? <==> xs[i].closingEntry.Some?)
      && (i < |xs| - 1 ==> xs[i].closing.Some?)
  }

  /** The marks of any well-indexed exercises alternate as a chain does. */
  lemma {:induction false} FlattenAlternates(xs: seq<Exercise>)
    requires WellIndexed(xs)
    ensures forall i :: 0 <= i < |Flatten(xs)| ==> Flatten(xs)[i].source == Expected(i)
    ensures xs != [] ==> |Flatten(xs)| == 2 * |xs| - if xs[|xs| - 1].Open() then 1 else 0
    ensures xs == [] ==> Flatten(xs) == []
  {
    if xs != [] {
      var n := |xs| - 1;
      FlattenAlternates(xs[..n]);
    }
  }

  /** The scan succeeds exactly on the boundaries that some well-indexed exercises flatten to,
      and on those it returns exercises that flatten to them. */
  lemma ScanIsExact(bs: seq<Entry>, snapshots: seq<Snapshot>)
    ensures IsChain(bs) <==> exists xs :: WellIndexed(xs) && Flatten(xs) == MarksOf(bs)
    ensures IsChain(bs) ==> WellIndexed(ExercisesOf(bs, snapshots))
                            && Flatten(ExercisesOf(bs, snapshots)) == MarksOf(bs)
  {
    if IsChain(bs) {
      FlattenInverts(bs, snapshots);
      assert WellIndexed(ExercisesOf(bs, snapshots));
    }
    if xs :| WellIndexed(xs) && Flatten(xs) == MarksOf(bs) {
      FlattenAlternates(xs);
      forall i | 0 <= i < |bs| ensures bs[i].source == Expected(i) {
        assert Flatten(xs)[i] == MarkOf(bs[i]);
      }
    }
  }

  // The exercise in progress, and the window of a report.

  /** `get_current_logical_exercise`. */
  function Current(xs: seq<Exercise>): Option<Exercise> {
    if xs == [] then None
    else
      var n := |xs| - 1;
      match LastOpen(xs)
      case Some(x) => Some(x)
      case None => Some(xs[n])
  }

  function LastOpen(xs: seq<Exercise>): Option<Exercise> {
    if xs == [] then None
    else if xs[|xs| - 1].Open() then Some(xs[|xs| - 1])
    else LastOpen(xs[..|xs| - 1])
  }

  datatype Context = Context(active: Option<Exercise>, previous: seq<Exercise>,
                             visibleFrom: Option<Date>, computedFrom: Option<Date>, until: Date)

  predicate Intersects(x: Exercise, from: Date, until: Date) {
    x.start <= until && (if x.closing.Some? then x.closing.value else until) >= from
  }

  function Intersected(xs: seq<Exercise>, from: Date, until: Date): seq<Exercise> {
    if xs == [] then []
    else
      var n := |xs| - 1;
      Intersected(xs[..n], from, until) + if Intersects(xs[n], from, until) then [xs[n]] else []
  }

  function Backwards<T>(s: seq<T>): seq<T> { seq(|s|, i requires 0 <= i < |s| => s[|s| - 1 - i]) }

  /** `resolve_report_exercise_context`, given the exercises and today's date for a missing `until`. */
  function ResolveContext(xs: seq<Exercise>, from: Option<Date>, until: Date): Context {
    if xs == [] then Context(None, [], from, from, until)
    else
      var requested := if from.Some? then from.value else xs[0].start;
      var hit := Intersected(xs, requested, until);
      if hit == [] then Context(None, [], Some(requested), Some(requested), until)
      else
        var active := hit[|hit| - 1];
        Context(Some(active), Backwards(hit[..|hit| - 1]), Some(Max(active.start, requested)), Some(active.start), until)
  }

  /** Exercises that follow one another in time without overlapping. */
  ghost predicate InOrder(xs: seq<Exercise>) {
    && (forall i :: 0 <= i < |xs| && xs[i].closing.Some? ==> xs[i].start <= xs[i].closing.value)
    && (forall i, j :: 0 <= i < j < |xs| ==> xs[i].closing.Some? && xs[i].closing.value < xs[j].start)
  }

  /** Whatever lies between two exercises that meet a range meets it too. */
  lemma Between(xs: seq<Exercise>, from: Date, until: Date, i: nat, m: nat, j: nat)
    requires InOrder(xs) && i < m < j < |xs|
    requires Intersects(xs[i], from, until) && Intersects(xs[j], from, until)
    ensures Intersects(xs[m], from, until)
  {
  }

  lemma IntersectedStep(xs: seq<Exercise>, from: Date, until: Date, n: nat)
    requires n < |xs|
    ensures Intersected(xs[..n + 1], from, until)
         == Intersected(xs[..n], from, until) + if Intersects(xs[n], from, until) then [xs[n]] else []
  {
    assert xs[..n + 1][..n] == xs[..n];
  }

  lemma SliceOfOneMore(xs: seq<Exercise>, lo: nat, n: nat)
    requires lo <= n < |xs|
    ensures xs[lo..n] + [xs[n]] == xs[lo..n + 1]
  {
  }

  /** The exercises a range meets, among the first k, are a contiguous run of the chain. */
  lemma {:induction false} IntersectedRun(xs: seq<Exercise>, from: Date, until: Date, k: nat) returns (lo: nat, hi: nat)
    requires InOrder(xs) && k <= |xs|
    ensures lo <= hi <= k && Intersected(xs[..k], from, until) == xs[lo..hi]
    ensures forall i :: 0 <= i < k ==> (Intersects(xs[i], from, until) <==> lo <= i < hi)
  {
    if k == 0 {
      return 0, 0;
    }
    var n := k - 1;
    lo, hi := IntersectedRun(xs, from, until, n);
    IntersectedStep(xs, from, until, n);
    if Intersects(xs[n], from, until) {
      if lo == hi {
        lo := n;
      } else if hi < n {
        Between(xs, from, until, lo, hi, n);
      }
      hi := k;
      SliceOfOneMore(xs, lo, n);
    }
  }

  /** The latest exercise that meets a range is the only one with dates between its start and the range's end. */
  lemma NotCovered(xs: seq<Exercise>, from: Date, until: Date, active: nat, i: nat, d: Date)
    requires InOrder(xs) && active < |xs| && i < |xs| && i != active
    requires Intersects(xs[active], from, until) && (i > active ==> !Intersects(xs[i], from, until))
    requires xs[active].start <= d <= until
    ensures !xs[i].Covers(d)
  {
    if i < active {
      assert xs[i].closing.value < xs[active].start;
    } else {
      assert xs[active].closing.value < xs[i].start;
    }
  }

  /** The date a report is asked to start at. */
  function Requested(xs: seq<Exercise>, from: Option<Date>): Date
    requires xs != []
  {
    if from.Some? then from.value else xs[0].start
  }

  lemma ActiveIsLatest(xs: seq<Exercise>, from: Option<Date>, until: Date) returns (lo: nat, hi: nat)
    requires InOrder(xs) && ResolveContext(xs, from, until).active.Some?
    ensures lo < hi <= |xs|
    ensures forall i :: 0 <= i < |xs| ==> (Intersects(xs[i], Requested(xs, from), until) <==> lo <= i < hi)
    ensures ResolveContext(xs, from, until)
         == Context(Some(xs[hi - 1]), Backwards(xs[lo..hi - 1]), Some(Max(xs[hi - 1].start, Requested(xs, from))),
                    Some(xs[hi - 1].start), until)
  {
    lo, hi := IntersectedRun(xs, Requested(xs, from), until, |xs|);
    assert xs[..|xs|] == xs;
    SliceEnds(xs, lo, hi);
  }

  lemma SliceEnds(xs: seq<Exercise>, lo: nat, hi: nat)
    requires lo <= hi <= |xs|
    ensures xs[lo..hi] != [] <==> lo < hi
    ensures lo < hi ==> xs[lo..hi][hi - lo - 1] == xs[hi - 1] && xs[lo..hi][..hi - lo - 1] == xs[lo..hi - 1]
  {
  }

  /** A report with an active exercise takes in no date of any other exercise, neither in the range it computes
      over nor in the part of it that it shows; the active exercise is the latest of a contiguous run of exercises
      that meet the request, and the others of the run are listed, latest first. */
  lemma WindowIsolation(xs: seq<Exercise>, from: Option<Date>, until: Date) returns (lo: nat, hi: nat)
    requires InOrder(xs) && ResolveContext(xs, from, until).active.Some?
    ensures lo < hi <= |xs|
    ensures forall i :: 0 <= i < |xs| ==> (Intersects(xs[i], Requested(xs, from), until) <==> lo <= i < hi)
    ensures var c := ResolveContext(xs, from, until);
            && c.active.value == xs[hi - 1] && c.previous == Backwards(xs[lo..hi - 1])
            && c.computedFrom == Some(xs[hi - 1].start)
            && c.visibleFrom == Some(Max(xs[hi - 1].start, Requested(xs, from)))
    ensures forall i, d :: 0 <= i < |xs| && i != hi - 1 && xs[hi - 1].start <= d <= until ==> !xs[i].Covers(d)
  {
    lo, hi := ActiveIsLatest(xs, from, until);
    forall i, d | 0 <= i < |xs| && i != hi - 1 && xs[hi - 1].start <= d <= until
      ensures !xs[i].Covers(d)
    {
      NotCovered(xs, Requested(xs, from), until, hi - 1, i, d);
    }
  }

  /** A range no exercise meets selects no active exercise, and shows no date of any exercise. */
  lemma NoExerciseNoDates(xs: seq<Exercise>, from: Option<Date>, until: Date, d: Date, i: nat)
    requires InOrder(xs) && xs != [] && ResolveContext(xs, from, until).active.None?
    requires i < |xs| && ResolveContext(xs, from, until).visibleFrom.Some?
    requires ResolveContext(xs, from, until).visibleFrom.value <= d <= until
    ensures !xs[i].Covers(d)
  {
    var requested := if from.Some? then from.value else xs[0].start;
    var lo, hi := IntersectedRun(xs, requested, until, |xs|);
    assert xs[..|xs|] == xs;
    assert !Intersects(xs[i], requested, until);
  }

  // The window of a report, from both ends.

  /** An exercise that has dates from one day to another; an open one lasts until the end asked for. */
  predicate Meets(x: Exercise, from: Date, until: Date) {
    x.start <= until && match x.closing case Some(closing) => from <= closing case None => from <= until
  }

  lemma {:induction false} LastHit(xs: seq<Exercise>, from: Date, until: Date) returns (m: nat)
    ensures m <= |xs| && (m == 0 <==> Intersected(xs, from, until) == [])
    ensures m > 0 ==> Meets(xs[m - 1], from, until)
                      && Intersected(xs, from, until)[|Intersected(xs, from, until)| - 1] == xs[m - 1]
    ensures forall i :: m <= i < |xs| ==> !Meets(xs[i], from, until)
  {
    if xs == [] {
      return 0;
    }
    var n := |xs| - 1;
    m := LastHit(xs[..n], from, until);
    if Intersects(xs[n], from, until) {
      m := |xs|;
    }
  }

  /** What a report shows and what it computes over. A missing start is that of the first exercise. With an exercise that
      meets the range, the latest one counts: the report computes from its start, and shows from there or from the
      start asked for, whichever is later. With none it computes and shows from the start asked for. It always ends
      where asked. */
  lemma ReportWindow(xs: seq<Exercise>, from: Option<Date>, until: Date) returns (m: nat)
    ensures m <= |xs|
    ensures var start := if from.Some? then from else if xs == [] then None else Some(xs[0].start);
            var c := ResolveContext(xs, from, until);
            && c.until == until && (xs == [] ==> start == from)
            && (forall i :: m <= i < |xs| ==> !Meets(xs[i], start.value, until))
            && (m == 0 ==> c.active.None? && c.visibleFrom == start && c.computedFrom == start)
            && (m > 0 ==> Meets(xs[m - 1], start.value, until) && c.active == Some(xs[m - 1])
                          && c.computedFrom == Some(xs[m - 1].start)
                          && c.visibleFrom == Some(if start.value <= xs[m - 1].start then xs[m - 1].start else start.value))
  {
    if xs == [] {
      return 0;
    }
    m := LastHit(xs, Requested(xs, from), until);
  }

  /** The scan reads exactly the openings, patrimonial closings and reopenings of a journal, by date and then by number. */
  lemma ScannedInOrder(entries: seq<Entry>)
    ensures forall i, j :: 0 <= i < j < |Scanned(entries)| ==>
              Scanned(entries)[i].date < Scanned(entries)[j].date
              || (Scanned(entries)[i].date == Scanned(entries)[j].date && Scanned(entries)[i].number <= Scanned(entries)[j].number)
    ensures forall e :: multiset(Scanned(entries))[e]
                        == if e.source == Opening || e.source == PatrimonialClosing || e.source == Reopening
                           then multiset(entries)[e] else 0
  {
    var bs := Scanned(entries);
    SortSorts(Boundaries(entries), EntryRank);
    forall i, j | 0 <= i < j < |bs| ensures bs[i].date < bs[j].date || (bs[i].date == bs[j].date && bs[i].number <= bs[j].number) {
      assert AtMost(EntryRank(bs[i]), EntryRank(bs[j]));
    }
    forall e ensures multiset(bs)[e] == if e.source == Opening || e.source == PatrimonialClosing || e.source == Reopening
                                        then multiset(entries)[e] else 0
    {
      BoundaryCounts(entries, e);
    }
  }

  lemma {:induction false} BoundaryCounts(entries: seq<Entry>, e: Entry)
    ensures multiset(Boundaries(entries))[e]
         == if e.source == Opening || e.source == PatrimonialClosing || e.source == Reopening then multiset(entries)[e] else 0
  {
    if entries != [] {
      var n := |entries| - 1;
      BoundaryCounts(entries[..n], e);
      assert entries == entries[..n] + [entries[n]];
    }
  }
}
