/** Exactly which demo payloads the static validator accepts. */
module DemoAcceptance {
  import opened Basics
  import opened Model
  import opened Turnovers
  import opened Journal
  import opened AccountResolution
  import opened OpeningEntry
  import opened OpeningEffects
  import opened ClosingPlan
  import opened DemoValidation
  import opened DemoImport
  import DemoSoundness

  // Lines.

  /** Lines of an entry are accepted exactly when each of them has a colectiva of the base chart, a name and a kind, and
      what they are posted as, wherever their accounts are found, is a postable asiento. */
  lemma AcceptedLinesIff(accounts: seq<Account>, ids: Index, lines: seq<DemoLine>)
    requires forall l :: l in lines ==> KeyOfSpec(Spec(l.parent, l.name)) in ids
    requires forall key :: key in ids ==> Serves(accounts, ids[key], key)
    ensures LinesAccepted(lines) <==>
              && (forall l :: l in lines ==> ValidParent(l.parent) && l.name != "" && (l.kind == "DEBIT" || l.kind == "CREDIT"))
              && Postable(accounts, DemoLinesOf(ids, lines))
  {
    if LinesAccepted(lines) {
      DemoSoundness.DemoPostable(accounts, ids, lines);
    }
    if Postable(accounts, DemoLinesOf(ids, lines))
       && forall l :: l in lines ==> ValidParent(l.parent) && l.name != "" && (l.kind == "DEBIT" || l.kind == "CREDIT") {
      PostableAccepted(accounts, ids, lines);
    }
  }

  lemma PostableAccepted(accounts: seq<Account>, ids: Index, lines: seq<DemoLine>)
    requires Postable(accounts, DemoLinesOf(ids, lines))
    requires forall l :: l in lines ==> ValidParent(l.parent) && l.name != "" && (l.kind == "DEBIT" || l.kind == "CREDIT")
    ensures LinesAccepted(lines)
  {
    var posted := DemoLinesOf(ids, lines);
    forall l | l in lines ensures LineAccepted(l) {
      var i :| 0 <= i < |lines| && lines[i] == l;
      assert posted[i] in posted;
    }
    KindPresent(ids, lines, "DEBIT");
    KindPresent(ids, lines, "CREDIT");
    DemoSoundness.KindsDiffer();
    DemoSoundness.DemoTurnover(ids, lines, Debit);
    DemoSoundness.DemoTurnover(ids, lines, Credit);
  }

  lemma KindPresent(ids: Index, lines: seq<DemoLine>, kind: string)
    requires kind == "DEBIT" || kind == "CREDIT"
    requires forall l :: l in lines ==> l.kind == "DEBIT" || l.kind == "CREDIT"
    requires HasSide(DemoLinesOf(ids, lines), SideOf(kind))
    ensures exists l :: l in lines && l.kind == kind
  {
    DemoSoundness.KindsDiffer();
    var posted := DemoLinesOf(ids, lines);
    var r :| r in posted && r.side == SideOf(kind);
    var i :| 0 <= i < |posted| && posted[i] == r;
    assert lines[i] in lines;
  }

  // Dates.

  function DatesOf(entries: seq<DemoEntry>): seq<Date> {
    seq(|entries|, i requires 0 <= i < |entries| => entries[i].date)
  }

  /** The dates of an exercise in the order of the payload: its entries, its closing, and from the day before the
      reopening to the reopening. */
  function ExerciseDates(x: DemoExercise): seq<Date> {
    DatesOf(x.entries)
    + match x.closing
      case Some(c) => [c.closing, c.reopening - 1, c.reopening]
      case None => []
  }

  /** All the dates of a payload, in its order. */
  function Timeline(p: DemoPayload, k: nat): seq<Date>
    requires k <= |p.exercises|
  {
    if k == 0 then [p.opening.date] else Timeline(p, k - 1) + ExerciseDates(p.exercises[k - 1])
  }

  predicate InDateOrder(dates: seq<Date>) { forall i, j :: 0 <= i < j < |dates| ==> dates[i] <= dates[j] }

  lemma JoinedInOrder(a: seq<Date>, b: seq<Date>)
    requires a != []
    ensures InDateOrder(a + b) <==> InDateOrder(a) && InDateOrder([a[|a| - 1]] + b)
  {
    var n, all, c := |a|, a + b, [a[|a| - 1]] + b;
    assert forall i :: 0 <= i < n ==> all[i] == a[i];
    assert forall i :: n - 1 <= i < |all| ==> all[i] == c[i - n + 1];
    assert forall i :: 0 <= i < |c| ==> c[i] == all[i + n - 1];
    if InDateOrder(a) && InDateOrder(c) {
      forall i, j | 0 <= i < j < |all| ensures all[i] <= all[j] {
        if i < n <= j {
          assert i < n - 1 ==> a[i] <= a[n - 1];
          assert c[0] <= c[j - n + 1];
        }
      }
    }
  }

  /** What the dates of one exercise have to do with each other, as the validator looks at them. */
  predicate DatesFit(x: DemoExercise, start: Date) {
    && (forall i :: 0 <= i < |x.entries| ==> x.entries[i].date >= start)
    && (forall i :: 0 < i < |x.entries| ==> x.entries[i - 1].date <= x.entries[i].date)
    && (x.closing.Some? ==>
          && x.closing.value.reopening > x.closing.value.closing && x.closing.value.closing >= start
          && (x.entries != [] ==> x.entries[|x.entries| - 1].date <= x.closing.value.closing))
  }

  lemma StepwiseInOrder(dates: seq<Date>)
    ensures InDateOrder(dates) <==> forall i :: 0 < i < |dates| ==> dates[i - 1] <= dates[i]
  {
    if forall i :: 0 < i < |dates| ==> dates[i - 1] <= dates[i] {
      forall i, j | 0 <= i < j < |dates| ensures dates[i] <= dates[j] {
        UpTheSteps(dates, i, j);
      }
    }
  }

  lemma {:induction false} UpTheSteps(dates: seq<Date>, i: nat, j: nat)
    requires i <= j < |dates| && forall k :: 0 < k < |dates| ==> dates[k - 1] <= dates[k]
    ensures dates[i] <= dates[j]
  {
    if i < j {
      UpTheSteps(dates, i, j - 1);
    }
  }

  lemma EntriesInOrder(entries: seq<DemoEntry>, start: Date)
    ensures InDateOrder([start] + DatesOf(entries)) <==>
              && (forall i :: 0 <= i < |entries| ==> entries[i].date >= start)
              && (forall i :: 0 < i < |entries| ==> entries[i - 1].date <= entries[i].date)
  {
    var dates := [start] + DatesOf(entries);
    if InDateOrder(dates) {
      forall i | 0 <= i < |entries| ensures entries[i].date >= start {
        assert dates[0] <= dates[i + 1];
      }
      forall i | 0 < i < |entries| ensures entries[i - 1].date <= entries[i].date {
        assert dates[i] <= dates[i + 1];
      }
    } else {
      StepwiseInOrder(dates);
    }
  }

  lemma DatesFitIff(x: DemoExercise, start: Date)
    ensures InDateOrder([start] + ExerciseDates(x)) <==> DatesFit(x, start)
  {
    EntriesInOrder(x.entries, start);
    var entries := [start] + DatesOf(x.entries);
    match x.closing
    case None =>
      assert [start] + ExerciseDates(x) == entries;
    case Some(c) =>
      var last := entries[|entries| - 1];
      assert [start] + ExerciseDates(x) == entries + [c.closing, c.reopening - 1, c.reopening];
      JoinedInOrder(entries, [c.closing, c.reopening - 1, c.reopening]);
      FourInOrder(last, c.closing, c.reopening);
      assert last == if x.entries == [] then start else x.entries[|x.entries| - 1].date;
  }

  lemma FourInOrder(last: Date, closing: Date, reopening: Date)
    ensures InDateOrder([last] + [closing, reopening - 1, reopening]) <==> last <= closing < reopening
  {
    var dates := [last] + [closing, reopening - 1, reopening];
    if InDateOrder(dates) {
      assert dates[0] <= dates[1] && dates[1] <= dates[2];
    }
  }

  /** The last date before the k-th exercise is the one it starts on, once every exercise before it is closed. */
  lemma TimelineEnds(p: DemoPayload, k: nat)
    requires k <= |p.exercises| && forall j :: 0 <= j < k ==> p.exercises[j].closing.Some?
    ensures Timeline(p, k) != [] && Timeline(p, k)[|Timeline(p, k)| - 1] == ExpectedStart(p, k)
  {
  }

  lemma DatesOneMore(p: DemoPayload, k: nat)
    requires k < |p.exercises| && forall j :: 0 <= j < k ==> p.exercises[j].closing.Some?
    ensures InDateOrder(Timeline(p, k + 1)) <==>
              InDateOrder(Timeline(p, k)) && DatesFit(p.exercises[k], ExpectedStart(p, k))
  {
    TimelineEnds(p, k);
    DatesFitIff(p.exercises[k], ExpectedStart(p, k));
    hide InDateOrder, DatesFit, ExerciseDates, ExpectedStart;
    JoinedInOrder(Timeline(p, k), ExerciseDates(p.exercises[k]));
  }

  lemma {:induction false} DatesInOrderIff(p: DemoPayload, k: nat)
    requires k <= |p.exercises| && forall j :: 0 <= j < k - 1 ==> p.exercises[j].closing.Some?
    ensures InDateOrder(Timeline(p, k)) <==> forall j :: 0 <= j < k ==> DatesFit(p.exercises[j], ExpectedStart(p, j))
  {
    hide DatesFit, ExpectedStart;
    if k > 0 {
      hide InDateOrder, Timeline;
      DatesInOrderIff(p, k - 1);
      DatesOneMore(p, k - 1);
    }
  }

  // Payloads.

  /** An ordinary entry with a description and sound lines. */
  predicate EntrySound(e: DemoEntry) { e.source == Manual && e.description != "" && LinesAccepted(e.lines) }

  lemma ExerciseIff(p: DemoPayload, k: nat)
    requires k < |p.exercises|
    ensures ExerciseAccepted(p, k) <==>
              && (forall e :: e in p.exercises[k].entries ==> EntrySound(e))
              && (k < |p.exercises| - 1 ==> p.exercises[k].closing.Some?)
              && DatesFit(p.exercises[k], ExpectedStart(p, k))
  {
    var entries := p.exercises[k].entries;
    if ExerciseAccepted(p, k) {
      forall e | e in entries ensures EntrySound(e) {
        var i :| 0 <= i < |entries| && entries[i] == e;
        assert EntryAccepted(entries[i], ExpectedStart(p, k));
      }
      forall i | 0 <= i < |entries| ensures entries[i].date >= ExpectedStart(p, k) {
        assert EntryAccepted(entries[i], ExpectedStart(p, k));
      }
    }
    if forall e :: e in entries ==> EntrySound(e) {
      forall i | 0 <= i < |entries| ensures EntrySound(entries[i]) {
        assert entries[i] in entries;
      }
    }
  }

  /** The exercises are accepted exactly when every entry is sound, all but maybe the last are closed and the dates never go
      back. */
  lemma ExercisesIff(p: DemoPayload)
    ensures (forall k :: 0 <= k < |p.exercises| ==> ExerciseAccepted(p, k)) <==>
              && (forall k, e :: 0 <= k < |p.exercises| && e in p.exercises[k].entries ==> EntrySound(e))
              && (forall k :: 0 <= k < |p.exercises| - 1 ==> p.exercises[k].closing.Some?)
              && InDateOrder(Timeline(p, |p.exercises|))
  {
    forall k | 0 <= k < |p.exercises|
      ensures ExerciseAccepted(p, k) <==>
                && (forall e :: e in p.exercises[k].entries ==> EntrySound(e))
                && (k < |p.exercises| - 1 ==> p.exercises[k].closing.Some?)
                && DatesFit(p.exercises[k], ExpectedStart(p, k))
    {
      ExerciseIff(p, k);
    }
    hide ExerciseAccepted, DatesFit, ExpectedStart, Timeline, InDateOrder, EntrySound;
    if forall k :: 0 <= k < |p.exercises| - 1 ==> p.exercises[k].closing.Some? {
      DatesInOrderIff(p, |p.exercises|);
    }
  }

  lemma OpeningGiven(p: Payload)
    ensures OpeningAccepted(p) <==>
              && p.assets != [] && (forall x :: x in p.assets ==> AssetGiven(x))
              && (forall x :: x in p.liabilities ==> LiabilityGiven(x)) && AmountSum(p.assets) > AmountSum(p.liabilities)
  {
    AmountSumIs(p.assets);
    AmountSumIs(p.liabilities);
    forall c: Code ensures c in OPENING_ASSETS <==> c.root == 1 && (c.local in {1, 2, 4, 6, 8, 9} || 11 <= c.local <= 16) {
    }
    forall c: Code ensures c in OPENING_LIABILITIES <==> c.root == 2 && 1 <= c.local <= 3 {
    }
  }

  /** A payload is accepted exactly when it has a name and exercises, all of them closed but maybe the last; its dates never
      go back, with each reopening after its closing; its entries are ordinary and sound; and its opening has assets,
      positive amounts, colectivas that can be in an inventory, and assets over liabilities. */
  lemma AcceptedIff(p: DemoPayload)
    ensures Accepted(p) <==>
              && p.name != "" && p.exercises != []
              && (forall k :: 0 <= k < |p.exercises| - 1 ==> p.exercises[k].closing.Some?)
              && (forall k, e :: 0 <= k < |p.exercises| && e in p.exercises[k].entries ==> EntrySound(e))
              && InDateOrder(Timeline(p, |p.exercises|))
              && p.opening.assets != [] && (forall x :: x in p.opening.assets ==> AssetGiven(x))
              && (forall x :: x in p.opening.liabilities ==> LiabilityGiven(x))
              && AmountSum(p.opening.assets) > AmountSum(p.opening.liabilities)
  {
    ExercisesIff(p);
    OpeningGiven(p.opening);
    hide ExerciseAccepted, OpeningAccepted, Timeline, InDateOrder, EntrySound, AmountSum, AssetGiven, LiabilityGiven;
  }

  /** Assets an opening can have: 1.01, 1.02, 1.04, 1.06, 1.08, 1.09 and 1.11 to 1.16. */
  predicate AssetGiven(x: Item) {
    x.amount > 0 && x.parent.root == 1
    && (x.parent.local in {1, 2, 4, 6, 8, 9} || 11 <= x.parent.local <= 16)
  }

  /** Liabilities it can have: 2.01 to 2.03. */
  predicate LiabilityGiven(x: Item) { x.amount > 0 && x.parent.root == 2 && 1 <= x.parent.local <= 3 }
}
