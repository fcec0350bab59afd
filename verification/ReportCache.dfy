/** The shared cache beside the books: a version number, and derived data stored under it. */
module ReportCache {
  import opened Basics
  import opened Sorting
  import opened Model
  import opened Turnovers
  import opened Exercises
  import opened ReportQueries
  import opened Runs
  import JournalBook
  import Ledger
  import TrialBalance
  import SharedTable

  datatype Query =
    | BookQuery(from: Option<Date>, until: Date)
    | TrialQuery(from: Option<Date>, until: Date)
    | LedgerQuery(from: Option<Date>, until: Date, account: Option<AccountId>)

  datatype Report =
    | BookReport(book: JournalBook.Book)
    | TrialReport(trial: TrialBalance.Trial)
    | LedgerReport(cards: seq<Ledger.AccountCard>)

  /** The name and account parts of a report key. */
  datatype Kind = BookKind | TrialKind | LedgerKind(account: Option<AccountId>)

  datatype Key =
    | VersionKey
    | ExercisesKey(version: int)
    | ReportKey(kind: Kind, from: Option<Date>, until: Date, exercise: Option<nat>, version: int)

  datatype Value = Number(n: int) | ExerciseList(exercises: seq<Exercise>) | Stored(report: Report)

  type Items = map<Key, Value>

  function VersionOf(k: Key): int { if k.VersionKey? then 0 else k.version }

  // The version protocol.

  /** `_get_or_init_version`. */
  function GetOrInit(items: Items): (int, Items) {
    if VersionKey in items && items[VersionKey].Number? && items[VersionKey].n > 0 then (items[VersionKey].n, items)
    else (1, items[VersionKey := Number(1)])
  }

  /** `_bump_version`: a missing version starts at 2, so that nothing stored under 1 can be read again. */
  function Bump(items: Items): Items {
    if VersionKey !in items then items[VersionKey := Number(2)]
    else if items[VersionKey].Number? then items[VersionKey := Number(items[VersionKey].n + 1)]
    else items[VersionKey := Number(2)]
  }

  function Bumps(items: Items, times: nat): Items {
    if times == 0 then items else Bump(Bumps(items, times - 1))
  }

  // Cached reads.

  /** `list_logical_exercises`: the stored list under the current version, or a fresh one, which is then stored. */
  function ListExercises(b: Books, items: Items): (Result<seq<Exercise>>, Items) {
    var (version, ready) := GetOrInit(items);
    var key := ExercisesKey(version);
    if key in ready && ready[key].ExerciseList? then (Ok(ready[key].exercises), ready)
    else
      match LogicalExercises(b)
      case Ok(xs) => (Ok(xs), ready[key := ExerciseList(xs)])
      case Err(error) => (Err(error), ready)
  }

  function KindOf(q: Query): Kind {
    match q
    case BookQuery(_, _) => BookKind
    case TrialQuery(_, _) => TrialKind
    case LedgerQuery(_, _, account) => LedgerKind(account)
  }

  function Compute(b: Books, kind: Kind, c: Context): Result<Report> {
    match kind
    case BookKind => Ok(BookReport(JournalBook.BookOf(b, c)))
    case TrialKind => Ok(TrialReport(TrialBalance.TrialOf(TrialBalance.RowsOf(b, c))))
    case LedgerKind(account) =>
      match Ledger.LedgerOf(b, c, account)
      case Ok(cards) => Ok(LedgerReport(cards))
      case Err(error) => Err(error)
  }

  /** The trial balance is keyed by what it computes over, the others by what they show. */
  function KeyFor(kind: Kind, c: Context, version: int): Key {
    ReportKey(kind, if kind.TrialKind? then c.computedFrom else c.visibleFrom, c.until,
              if c.active.Some? then Some(c.active.value.openingEntry) else None, version)
  }

  function ContextOf(xs: seq<Exercise>, q: Query): Context { ResolveContext(xs, q.from, q.until) }

  /** The part of a report read after its context has been resolved. */
  function ReadKeyed(b: Books, items: Items, kind: Kind, c: Context): (Result<Report>, Items) {
    var (version, ready) := GetOrInit(items);
    var key := KeyFor(kind, c, version);
    if key in ready && ready[key].Stored? then (Ok(ready[key].report), ready)
    else
      match Compute(b, kind, c)
      case Ok(report) => (Ok(report), ready[key := Stored(report)])
      case Err(error) => (Err(error), ready)
  }

  function ReadReport(b: Books, items: Items, q: Query): (Result<Report>, Items) {
    var (listed, ready) := ListExercises(b, items);
    match listed
    case Err(error) => (Err(error), ready)
    case Ok(xs) => ReadKeyed(b, ready, KindOf(q), ContextOf(xs, q))
  }

  /** A report computed without any cache. */
  function FreshReport(b: Books, q: Query): Result<Report> {
    match LogicalExercises(b)
    case Err(error) => Err(error)
    case Ok(xs) => Compute(b, KindOf(q), ContextOf(xs, q))
  }

  // The same over a mutable store.

  class Store {
    var items: Items

    constructor ()
      ensures items == map[]
    {
      items := map[];
    }

    method SafeGet(key: Key) returns (value: Option<Value>)
      ensures value == if key in items then Some(items[key]) else None
    {
      value := if key in items then Some(items[key]) else None;
    }

    method SafeSet(key: Key, value: Value)
      modifies this
      ensures items == old(items)[key := value]
    {
      items := items[key := value];
    }

    /** Sets a missing key only. A backend that fails says nothing and changes nothing. */
    method SafeAdd(key: Key, value: Value, available: bool) returns (added: Option<bool>)
      modifies this
      ensures added == if available then Some(key !in old(items)) else None
      ensures items == if added == Some(true) then old(items)[key := value] else old(items)
    {
      if !available {
        return None;
      }
      added := Some(key !in items);
      if added.value {
        items := items[key := value];
      }
    }

    /** Increments a number. A missing key, another value or a backend that fails gives nothing and changes nothing. */
    method SafeIncr(key: Key, available: bool) returns (value: Option<int>)
      modifies this
      ensures value.Some? <==> available && key in old(items) && old(items)[key].Number?
      ensures value.Some? ==> value.value == old(items)[key].n + 1 && items == old(items)[key := Number(value.value)]
      ensures value.None? ==> items == old(items)
    {
      if available && key in items && items[key].Number? {
        value := Some(items[key].n + 1);
        items := items[key := Number(value.value)];
      } else {
        value := None;
      }
    }

    method GetOrInitVersion() returns (version: int)
      modifies this
      ensures (version, items) == GetOrInit(old(items))
    {
      var current := SafeGet(VersionKey);
      if current.Some? && current.value.Number? && current.value.n > 0 {
        return current.value.n;
      }
      SafeSet(VersionKey, Number(1));
      return 1;
    }

    /** The fallback covers an addition and an increment that fail while reads and writes still work. */
    method BumpVersion(addAvailable: bool, incrAvailable: bool) returns (version: int)
      modifies this
      ensures items == Bump(old(items)) && items[VersionKey] == Number(version)
    {
      var added := SafeAdd(VersionKey, Number(2), addAvailable);
      if added == Some(true) {
        return 2;
      }
      var value := SafeIncr(VersionKey, incrAvailable);
      if value.None? {
        var current := SafeGet(VersionKey);
        version := if current.Some? && current.value.Number? then current.value.n + 1 else 2;
        SafeSet(VersionKey, Number(version));
      } else {
        version := value.value;
      }
    }

    method ListLogicalExercises(b: Books) returns (r: Result<seq<Exercise>>)
      modifies this
      ensures (r, items) == ListExercises(b, old(items))
    {
      var version := GetOrInitVersion();
      var key := ExercisesKey(version);
      var cached := SafeGet(key);
      if cached.Some? && cached.value.ExerciseList? {
        return Ok(cached.value.exercises);
      }
      r := BuildLogicalExercises(b);
      if r.Ok? {
        SafeSet(key, ExerciseList(r.value));
      }
    }

    /** The journal book, trial balance and ledger services share this shape: resolve, look up, compute, store. */
    method GetReport(b: Books, q: Query) returns (r: Result<Report>)
      modifies this
      ensures (r, items) == ReadReport(b, old(items), q)
    {
      var listed := ListLogicalExercises(b);
      if listed.Err? {
        return Err(listed.error);
      }
      var c := ContextOf(listed.value, q);
      var version := GetOrInitVersion();
      var key := KeyFor(KindOf(q), c, version);
      var cached := SafeGet(key);
      if cached.Some? && cached.value.Stored? {
        return Ok(cached.value.report);
      }
      match q {
        case BookQuery(_, _) =>
          var book := JournalBook.GetJournalBook(b, c);
          r := Ok(BookReport(book));
        case TrialQuery(_, _) =>
          var trial := TrialBalance.GetTrialBalance(b, c);
          r := Ok(TrialReport(trial));
        case LedgerQuery(_, _, account) =>
          var cards := Ledger.GetLedger(b, c, account);
          r := if cards.Ok? then Ok(LedgerReport(cards.value)) else Err(cards.error);
      }
      if r.Ok? {
        SafeSet(key, Stored(r.value));
      }
    }
  }

  // Coherence.

  /** Everything is stored under versions up to the current one; without a version nothing is stored. */
  ghost predicate Versioned(items: Items) {
    && (VersionKey in items ==> items[VersionKey].Number? && items[VersionKey].n >= 1)
    && (forall k :: k in items && k != VersionKey ==> VersionKey in items && VersionOf(k) <= items[VersionKey].n)
  }

  /** A context that some request resolves to in these books. */
  ghost predicate IsContext(b: Books, c: Context) {
    LogicalExercises(b).Ok? && exists from, until :: c == ResolveContext(LogicalExercises(b).value, from, until)
  }

  /** What is stored under a version is what would be computed now. */
  ghost predicate FreshUnder(b: Books, items: Items, version: int) {
    && (ExercisesKey(version) in items ==>
          items[ExercisesKey(version)].ExerciseList? && LogicalExercises(b) == Ok(items[ExercisesKey(version)].exercises))
    && (forall kind, c :: KeyFor(kind, c, version) in items && IsContext(b, c) ==>
          items[KeyFor(kind, c, version)].Stored? && Compute(b, kind, c) == Ok(items[KeyFor(kind, c, version)].report))
  }

  ghost predicate Coherent(b: Books, items: Items) {
    Versioned(items) && (VersionKey in items ==> FreshUnder(b, items, items[VersionKey].n))
  }

  lemma OpeningsIncrease(bs: seq<Entry>, snapshots: seq<Snapshot>, i: nat, j: nat)
    requires Chained(bs) && i < j < |ExercisesOf(bs, snapshots)|
    ensures ExercisesOf(bs, snapshots)[i].openingEntry < ExercisesOf(bs, snapshots)[j].openingEntry
  {
  }

  /** Exercises of a sound journal are told apart by their opening entries. */
  lemma OpeningsDiffer(b: Books, x: Exercise, y: Exercise)
    requires Inv(b) && LogicalExercises(b).Ok? && x in LogicalExercises(b).value && y in LogicalExercises(b).value
    requires x.openingEntry == y.openingEntry
    ensures x == y
  {
    ExercisesOfSoundBooks(b);
    var bs := Boundaries(b.entries);
    var xs := ExercisesOf(bs, b.snapshots);
    var i :| 0 <= i < |xs| && xs[i] == x;
    var j :| 0 <= j < |xs| && xs[j] == y;
    if i != j {
      OpeningsIncrease(bs, b.snapshots, if i < j then i else j, if i < j then j else i);
    }
  }

  lemma {:induction false} IntersectedMembers(xs: seq<Exercise>, from: Date, until: Date)
    ensures forall x :: x in Intersected(xs, from, until) ==> x in xs
  {
    if xs != [] {
      var n := |xs| - 1;
      assert xs == xs[..n] + [xs[n]];
      IntersectedMembers(xs[..n], from, until);
    }
  }

  /** The active exercise of a context is an exercise of the books, and where the context computes from depends
      on it, or without one on what is shown. */
  lemma ContextShape(xs: seq<Exercise>, from: Option<Date>, until: Date)
    ensures var c := ResolveContext(xs, from, until);
            && (c.active.Some? ==> c.active.value in xs && c.computedFrom == Some(c.active.value.start))
            && (c.active.None? ==> c.computedFrom == c.visibleFrom)
  {
    if xs != [] {
      IntersectedMembers(xs, Requested(xs, from), until);
    }
  }

  lemma SameComputedFrom(b: Books, c: Context, d: Context)
    requires Inv(b) && IsContext(b, c) && IsContext(b, d) && c.visibleFrom == d.visibleFrom
    requires c.active.Some? == d.active.Some?
    requires c.active.Some? ==> c.active.value.openingEntry == d.active.value.openingEntry
    ensures c.computedFrom == d.computedFrom
  {
    var xs := LogicalExercises(b).value;
    var from, until :| c == ResolveContext(xs, from, until);
    var from', until' :| d == ResolveContext(xs, from', until');
    ContextShape(xs, from, until);
    ContextShape(xs, from', until');
    if c.active.Some? {
      OpeningsDiffer(b, c.active.value, d.active.value);
    }
  }

  lemma SameCard(b: Books, c: Context, d: Context, id: AccountId)
    requires id < |b.accounts| && c.visibleFrom == d.visibleFrom && c.computedFrom == d.computedFrom && c.until == d.until
    ensures Ledger.CardOf(b, c, id) == Ledger.CardOf(b, d, id)
  {
  }

  lemma SameCards(b: Books, c: Context, d: Context, account: Option<AccountId>)
    requires c.visibleFrom == d.visibleFrom && c.computedFrom == d.computedFrom && c.until == d.until
    ensures Ledger.LedgerOf(b, c, account) == Ledger.LedgerOf(b, d, account)
  {
    hide Ledger.CardOf, Ledger.Listed;
    Ledger.ListedInTable(b, account);
    if Ledger.Listed(b, account).Some? {
      var ids := Ledger.Listed(b, account).value;
      forall i | 0 <= i < |ids| ensures ids[i] < |b.accounts| && Ledger.CardOf(b, c, ids[i]) == Ledger.CardOf(b, d, ids[i]) {
        assert ids[i] in ids;
        SameCard(b, c, d, ids[i]);
      }
      assert Ledger.CardsOf(b, c, ids) == Ledger.CardsOf(b, d, ids);
    }
  }

  /** Two contexts of the same books that share a key share the report. */
  lemma KeyDetermines(b: Books, kind: Kind, c: Context, kind': Kind, d: Context, version: int)
    requires Inv(b) && IsContext(b, c) && IsContext(b, d) && KeyFor(kind, c, version) == KeyFor(kind', d, version)
    ensures kind == kind' && Compute(b, kind, c) == Compute(b, kind, d)
  {
    match kind
    case BookKind => assert Visible(c) == Visible(d);
    case TrialKind => assert Computed(c) == Computed(d);
    case LedgerKind(account) =>
      SameComputedFrom(b, c, d);
      SameCards(b, c, d, account);
  }

  lemma GetOrInitKeeps(b: Books, items: Items)
    requires Coherent(b, items)
    ensures var (version, ready) := GetOrInit(items);
            Coherent(b, ready) && VersionKey in ready && ready[VersionKey] == Number(version)
  {
  }

  /** A bump leaves the cache coherent with some books, whatever was in it before, exactly when nothing is stored above
      the new version and what is stored under it is fresh. */
  lemma BumpCoherentIff(b: Books, items: Items)
    ensures var version := Bump(items)[VersionKey].n;
            Coherent(b, Bump(items)) <==>
              && version >= 1 && (forall k :: k in items && k != VersionKey ==> VersionOf(k) <= version)
              && FreshUnder(b, items, version)
  {
    var after := Bump(items);
    assert forall k :: k != VersionKey ==> (k in after <==> k in items) && (k in items ==> after[k] == items[k]);
  }

  /** While the version is not lost, nothing is stored under the current version after a bump, whatever the books have
      become. */
  lemma BumpKeeps(b: Books, items: Items)
    requires Versioned(items)
    ensures Coherent(b, Bump(items))
  {
    var after := Bump(items);
    var version := after[VersionKey].n;
    forall k | k in after && k != VersionKey ensures VersionOf(k) < version {
      assert k in items;
    }
  }

  lemma BumpsKeep(b: Books, items: Items, times: nat)
    requires Versioned(items) && (times == 0 ==> Coherent(b, items))
    ensures Coherent(b, Bumps(items, times))
  {
    if times > 0 {
      BumpsVersioned(items, times - 1);
      BumpKeeps(b, Bumps(items, times - 1));
    }
  }

  lemma {:induction false} BumpsVersioned(items: Items, times: nat)
    requires Versioned(items)
    ensures Versioned(Bumps(items, times))
  {
    if times > 0 {
      BumpsVersioned(items, times - 1);
    }
  }

  /** Listing exercises returns what a fresh scan returns, and keeps the cache coherent. */
  lemma ListKeeps(b: Books, items: Items)
    requires Coherent(b, items)
    ensures ListExercises(b, items).0 == LogicalExercises(b)
    ensures Coherent(b, ListExercises(b, items).1)
  {
    GetOrInitKeeps(b, items);
  }

  lemma ReadKeyedKeeps(b: Books, items: Items, kind: Kind, c: Context)
    requires Inv(b) && Coherent(b, items) && IsContext(b, c)
    ensures ReadKeyed(b, items, kind, c).0 == Compute(b, kind, c)
    ensures Coherent(b, ReadKeyed(b, items, kind, c).1)
  {
    GetOrInitKeeps(b, items);
    var (version, ready) := GetOrInit(items);
    var key := KeyFor(kind, c, version);
    var after := ReadKeyed(b, items, kind, c).1;
    if after != ready {
      forall kind', d | KeyFor(kind', d, version) in after && IsContext(b, d)
        ensures after[KeyFor(kind', d, version)].Stored?
                && Compute(b, kind', d) == Ok(after[KeyFor(kind', d, version)].report)
      {
        if KeyFor(kind', d, version) == key {
          KeyDetermines(b, kind, c, kind', d, version);
        }
      }
    }
  }

  /** Reading a report returns what a fresh computation returns, and keeps the cache coherent. */
  lemma ReadKeeps(b: Books, items: Items, q: Query)
    requires Inv(b) && Coherent(b, items)
    ensures ReadReport(b, items, q).0 == FreshReport(b, q)
    ensures Coherent(b, ReadReport(b, items, q).1)
  {
    ListKeeps(b, items);
    if LogicalExercises(b).Ok? {
      var c := ContextOf(LogicalExercises(b).value, q);
      assert IsContext(b, c);
      ReadKeyedKeeps(b, ListExercises(b, items).1, KindOf(q), c);
    }
  }

  // Runs of books and cache together.

  datatype System = System(books: Books, items: Items)

  /** A write that fails may have bumped before it rolled back. An eviction is of anything but the version. */
  datatype Event =
    | Write(step: Step, bumps: nat)
    | ListRead
    | ReportRead(query: Query)
    | Evict(key: Key)

  function React(s: System, e: Event): System {
    match e
    case Write(step, bumps) =>
      // a closing first looks up the exercise in progress
      var items := if step.Close? then ListExercises(s.books, s.items).1 else s.items;
      System(Next(s.books, step), Bumps(items, bumps))
    case ListRead => s.(items := ListExercises(s.books, s.items).1)
    case ReportRead(q) => s.(items := ReadReport(s.books, s.items, q).1)
    case Evict(key) => s.(items := s.items - {key})
  }

  /** Every write of this company that succeeds bumps at least once: accounts are resolved within a posting, and creating
      one bumps by itself. A row that another company adds to the shared table bumps nothing. The version key is never
      lost. */
  predicate Admissible(s: System, e: Event) {
    match e
    case Write(step, bumps) =>
      Attempt(s.books, step).Ok? ==> bumps >= 1 || (step.AddAccount? && step.account.owner != ThisCompany)
    case Evict(key) => key != VersionKey
    case _ => true
  }

  function RunSystem(s: System, events: seq<Event>): System {
    if events == [] then s else React(RunSystem(s, events[..|events| - 1]), events[|events| - 1])
  }

  predicate AdmissibleRun(s: System, events: seq<Event>) {
    events == []
    || (AdmissibleRun(s, events[..|events| - 1])
        && Admissible(RunSystem(s, events[..|events| - 1]), events[|events| - 1]))
  }

  /** A row of another company changes no exercise and no report. */
  lemma ForeignRow(b: Books, a: Account)
    requires a.owner != ThisCompany
    ensures LogicalExercises(SharedTable.OneMoreRow(b, a)) == LogicalExercises(b)
    ensures forall kind, c :: Compute(SharedTable.OneMoreRow(b, a), kind, c) == Compute(b, kind, c)
  {
    forall kind, c ensures Compute(SharedTable.OneMoreRow(b, a), kind, c) == Compute(b, kind, c) {
      match kind
      case BookKind =>
      case TrialKind => SharedTable.RowsOfOneMore(b, a, c);
      case LedgerKind(account) => SharedTable.LedgerOfOneMore(b, a, c, account);
    }
  }

  lemma ForeignRowKeeps(b: Books, a: Account, items: Items)
    requires a.owner != ThisCompany && Coherent(b, items)
    ensures Coherent(SharedTable.OneMoreRow(b, a), items)
  {
    ForeignRow(b, a);
    forall c ensures IsContext(SharedTable.OneMoreRow(b, a), c) <==> IsContext(b, c) {
    }
  }

  ghost predicate SystemOk(s: System) { Inv(s.books) && Coherent(s.books, s.items) }

  lemma WriteKeeps(b: Books, items: Items, step: Step, bumps: nat)
    requires Inv(b) && Coherent(b, items) && Admissible(System(b, items), Write(step, bumps))
    ensures Coherent(Next(b, step), Bumps(items, bumps))
  {
    if bumps == 0 && Attempt(b, step).Ok? {
      ForeignRowKeeps(b, step.account, items);
    } else {
      BumpsKeep(Next(b, step), items, bumps);
    }
  }

  lemma ReactKeeps(s: System, e: Event)
    requires SystemOk(s) && Admissible(s, e)
    ensures SystemOk(React(s, e))
  {
    match e
    case Write(step, bumps) =>
      NextKeeps(s.books, step);
      if step.Close? {
        ListKeeps(s.books, s.items);
      }
      WriteKeeps(s.books, if step.Close? then ListExercises(s.books, s.items).1 else s.items, step, bumps);
    case ListRead => ListKeeps(s.books, s.items);
    case ReportRead(q) => ReadKeeps(s.books, s.items, q);
    case Evict(key) =>
  }

  lemma {:induction false} SystemKeeps(s: System, events: seq<Event>)
    requires SystemOk(s) && AdmissibleRun(s, events)
    ensures SystemOk(RunSystem(s, events))
  {
    if events != [] {
      var n := |events| - 1;
      SystemKeeps(s, events[..n]);
      ReactKeeps(RunSystem(s, events[..n]), events[n]);
    }
  }

  /** Cache coherence. In any run of writes, reads and evictions from a fresh company and an empty cache, every
      cached list of exercises and every cached report equals a fresh computation. */
  lemma CacheIsCoherent(start: Books, events: seq<Event>, q: Query)
    requires Fresh(start) && AdmissibleRun(System(start, map[]), events)
    ensures var s := RunSystem(System(start, map[]), events);
            && ListExercises(s.books, s.items).0 == LogicalExercises(s.books)
            && ReadReport(s.books, s.items, q).0 == FreshReport(s.books, q)
  {
    FreshInv(start);
    SystemKeeps(System(start, map[]), events);
    var s := RunSystem(System(start, map[]), events);
    ListKeeps(s.books, s.items);
    ReadKeeps(s.books, s.items, q);
  }
}
