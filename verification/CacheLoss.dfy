/** What is read once the version key of the cache has been lost. */
module CacheLoss {
  import opened Basics
  import opened Model
  import opened Journal
  import opened Exercises
  import opened ClosingPlan
  import opened ClosingExecution
  import opened ClosingTheorems
  import opened Runs
  import opened ReportCache
  import opened ReportExamples
  import opened ClosingExamples

  /** The cache without its version, after some bumps. */
  function Lost(items: Items, bumps: nat): Items { Bumps(items - {VersionKey}, bumps) }

  lemma {:induction false} VersionAfterBumps(items: Items, version: int, bumps: nat)
    requires VersionKey in items && items[VersionKey] == Number(version)
    ensures Bumps(items, bumps) == items[VersionKey := Number(version + bumps)]
  {
    if bumps > 0 {
      VersionAfterBumps(items, version, bumps - 1);
    }
  }

  lemma {:induction false} VersionStands(items: Items, bumps: nat)
    requires bumps >= 1
    ensures Lost(items, bumps) == items[VersionKey := Number(bumps + 1)]
  {
    var lost := items - {VersionKey};
    if bumps == 1 {
      assert Bumps(lost, 0) == lost;
      assert Bump(lost) == items[VersionKey := Number(2)];
    } else {
      VersionStands(items, bumps - 1);
    }
  }

  /** The version starts again: it is one more than the bumps since the loss, and everything stored is still there. */
  lemma LostVersion(items: Items, bumps: nat)
    ensures GetOrInit(Lost(items, bumps)) == (bumps + 1, items[VersionKey := Number(bumps + 1)])
  {
    if bumps == 0 {
      assert (items - {VersionKey})[VersionKey := Number(1)] == items[VersionKey := Number(1)];
    } else {
      VersionStands(items, bumps);
    }
  }

  /** A list stored under a version that comes round again is served again, whatever the books have become. */
  lemma LostVersionServesTheOldList(after: Books, items: Items, bumps: nat, xs: seq<Exercise>)
    requires ExercisesKey(bumps + 1) in items && items[ExercisesKey(bumps + 1)] == ExerciseList(xs)
    ensures ListExercises(after, Lost(items, bumps)).0 == Ok(xs)
  {
    LostVersion(items, bumps);
  }

  /** After the version is lost and any number of bumps, the list read is fresh exactly when a list stored under the
      version that has come round is. */
  lemma LostVersionListIff(b: Books, items: Items, bumps: nat)
    ensures ListExercises(b, Lost(items, bumps)).0 == LogicalExercises(b) <==>
              (ExercisesKey(bumps + 1) in items && items[ExercisesKey(bumps + 1)].ExerciseList? ==>
                 LogicalExercises(b) == Ok(items[ExercisesKey(bumps + 1)].exercises))
  {
    LostVersion(items, bumps);
  }

  /** The same of a report, once the list is fresh. */
  lemma LostVersionReportIff(b: Books, items: Items, bumps: nat, q: Query)
    requires LogicalExercises(b).Ok? && ListExercises(b, Lost(items, bumps)).0 == LogicalExercises(b)
    ensures var c := ContextOf(LogicalExercises(b).value, q);
            var key := KeyFor(KindOf(q), c, bumps + 1);
            ReadReport(b, Lost(items, bumps), q).0 == FreshReport(b, q) <==>
              (key in items && items[key].Stored? ==> Compute(b, KindOf(q), c) == Ok(items[key].report))
  {
    LostVersion(items, bumps);
    var ready := ListExercises(b, Lost(items, bumps)).1;
    assert GetOrInit(ready) == (bumps + 1, ready);
  }

  /** Losing the version leaves a coherent cache coherent exactly when it holds nothing else. */
  lemma LostVersionCoherentIff(b: Books, items: Items)
    requires Coherent(b, items)
    ensures Coherent(b, items - {VersionKey}) <==> forall k :: k in items ==> k == VersionKey
  {
    if k :| k in items && k != VersionKey {
      assert k in items - {VersionKey} && VersionKey !in items - {VersionKey};
      assert !Versioned(items - {VersionKey});
    }
  }

  // Runs that read a stale list.

  /** A closing adds an exercise to the list. */
  lemma ClosingAddsExercise(b: Books, req: Request)
    requires Inv(b) && Execute(b, req).Ok?
    ensures LogicalExercises(b).Ok? && LogicalExercises(Execute(b, req).value).Ok?
    ensures |LogicalExercises(Execute(b, req).value).value| == |LogicalExercises(b).value| + 1
  {
    var support, plan := ExecuteCloses(b, req);
    var after := Execute(b, req).value;
    hide Execute;
    ClosedKeeps(b, req, support, plan, after);
    ClosedBoundaries(b, req, support, plan, after);
    ExercisesOfSoundBooks(b);
    ExercisesOfSoundBooks(after);
  }

  lemma RunOneMore(s: System, events: seq<Event>, e: Event)
    ensures RunSystem(s, events + [e]) == React(RunSystem(s, events), e)
    ensures AdmissibleRun(s, events + [e]) <==> AdmissibleRun(s, events) && Admissible(RunSystem(s, events), e)
  {
    assert (events + [e])[..|events|] == events;
  }

  /** The list is read, a closing is written, and the version is lost. */
  function ListCloseLose(req: Request, bumps: nat): seq<Event> {
    [ListRead] + [Write(Close(req), bumps)] + [Evict(VersionKey)]
  }

  lemma CloseReacts(s: System, req: Request, bumps: nat)
    requires Execute(s.books, req).Ok?
    ensures React(s, Write(Close(req), bumps))
         == System(Execute(s.books, req).value, Bumps(ListExercises(s.books, s.items).1, bumps))
    ensures Admissible(s, Write(Close(req), bumps)) <==> bumps >= 1
  {
    hide Execute;
  }

  /** What the first list read stores. */
  function Listed(xs: seq<Exercise>): Items { map[VersionKey := Number(1)][ExercisesKey(1) := ExerciseList(xs)] }

  lemma FirstList(b: Books)
    requires LogicalExercises(b).Ok?
    ensures React(System(b, map[]), ListRead) == System(b, Listed(LogicalExercises(b).value))
    ensures ListExercises(b, Listed(LogicalExercises(b).value)).1 == Listed(LogicalExercises(b).value)
  {
    hide LogicalExercises;
  }

  lemma ListThenClose(b: Books, req: Request, bumps: nat)
    requires Execute(b, req).Ok? && LogicalExercises(b).Ok? && bumps >= 1
    ensures var s := RunSystem(System(b, map[]), [ListRead] + [Write(Close(req), bumps)]);
            && s.books == Execute(b, req).value
            && ExercisesKey(1) in s.items && s.items[ExercisesKey(1)] == ExerciseList(LogicalExercises(b).value)
    ensures AdmissibleRun(System(b, map[]), [ListRead] + [Write(Close(req), bumps)])
  {
    hide Execute, LogicalExercises, ListExercises, React;
    var start, listed := System(b, map[]), Listed(LogicalExercises(b).value);
    assert [] + [ListRead] == [ListRead];
    RunOneMore(start, [], ListRead);
    FirstList(b);
    RunOneMore(start, [ListRead], Write(Close(req), bumps));
    CloseReacts(System(b, listed), req, bumps);
    VersionAfterBumps(listed, 1, bumps);
  }

  /** In every sound books, after any closing: whoever read the list before the closing reads that old list again once
      the version is lost, and it lacks an exercise. All of the run but the loss is admissible. */
  lemma LossServesStaleList(b: Books, req: Request, bumps: nat)
    requires Inv(b) && Execute(b, req).Ok? && bumps >= 1
    ensures var events := ListCloseLose(req, bumps);
            var s := RunSystem(System(b, map[]), events);
            && AdmissibleRun(System(b, map[]), events[..2])
            && ListExercises(s.books, s.items).0 == LogicalExercises(b)
            && ListExercises(s.books, s.items).0 != LogicalExercises(s.books)
  {
    hide *;
    var early := [ListRead] + [Write(Close(req), bumps)];
    ClosingAddsExercise(b, req);
    ListThenClose(b, req, bumps);
    EarlyRun(req, bumps);
    RunOneMore(System(b, map[]), early, Evict(VersionKey));
    var s := RunSystem(System(b, map[]), early);
    LostAtOnce(s);
    LostVersionServesTheOldList(s.books, s.items, 0, LogicalExercises(b).value);
  }

  lemma EarlyRun(req: Request, bumps: nat)
    ensures ListCloseLose(req, bumps)[..2] == [ListRead] + [Write(Close(req), bumps)]
    ensures ListCloseLose(req, bumps) == [ListRead] + [Write(Close(req), bumps)] + [Evict(VersionKey)]
  {
  }

  lemma NoBumps(items: Items)
    ensures Lost(items, 0) == items - {VersionKey}
  {
  }

  lemma LostAtOnce(s: System)
    ensures React(s, Evict(VersionKey)) == System(s.books, Lost(s.items, 0))
  {
  }

  /** Bumping does not help: where a list is stored under version n, losing the version and then closing with n - 1
      entries brings it back as current. */
  lemma LossThenClosingServesStaleList(b: Books, items: Items, req: Request, n: nat)
    requires Inv(b) && Execute(b, req).Ok? && n >= 2 && LogicalExercises(b).Ok?
    requires ExercisesKey(n) in items && items[ExercisesKey(n)] == ExerciseList(LogicalExercises(b).value)
    ensures var s := React(React(System(b, items), Evict(VersionKey)), Write(Close(req), n - 1));
            && s.books == Execute(b, req).value
            && ListExercises(s.books, s.items).0 == LogicalExercises(b)
            && ListExercises(s.books, s.items).0 != LogicalExercises(s.books)
  {
    hide *;
    ClosingAddsExercise(b, req);
    var lost := items - {VersionKey};
    LostAtOnce(System(b, items));
    NoBumps(items);
    CloseReacts(System(b, lost), req, n - 1);
    ListAfterLoss(b, items, n);
    VersionAfterBumps(ListExercises(b, lost).1, 1, n - 1);
    ListUnder(Execute(b, req).value, ListExercises(b, lost).1[VersionKey := Number(n)], n, LogicalExercises(b).value);
  }

  /** A list stored under the current version is the one read. */
  lemma ListUnder(b: Books, items: Items, n: nat, xs: seq<Exercise>)
    requires n >= 1 && VersionKey in items && items[VersionKey] == Number(n)
    requires ExercisesKey(n) in items && items[ExercisesKey(n)] == ExerciseList(xs)
    ensures ListExercises(b, items).0 == Ok(xs)
  {
  }

  lemma ListAfterLoss(b: Books, items: Items, n: nat)
    requires n >= 2 && ExercisesKey(n) in items
    ensures var listed := ListExercises(b, items - {VersionKey}).1;
            && VersionKey in listed && listed[VersionKey] == Number(1)
            && ExercisesKey(n) in listed && listed[ExercisesKey(n)] == items[ExercisesKey(n)]
  {
    hide LogicalExercises;
  }

  /** Instance: the closing of a company on the day it opens, which posts two entries. */
  lemma OpenedBooksGoStale(names: Names, date: Date)
    ensures var b := OpenedBooks(names, date);
            var s := RunSystem(System(b, map[]), ListCloseLose(Closing(date), 2));
            ListExercises(s.books, s.items).0 != LogicalExercises(s.books)
  {
    OpenedBooksSound(names, date);
    OpenedBooksClose(names, Closing(date));
    hide OpenedBooks, Inv, Execute, BuildPlan;
    LossServesStaleList(OpenedBooks(names, date), Closing(date), 2);
  }
}
