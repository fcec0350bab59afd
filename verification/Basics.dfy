/** Results, options and the errors the services raise. */
module Basics {

  datatype Option<+T> = None | Some(value: T)

  /** One constructor per exception site that a caller can tell apart. */
  datatype Error =
    // journal
    | ReservedSourceType | AlreadyOpened | OpeningNotFirst | NotOpened | PeriodClosed
    | MissingSide | UnknownAccount | AmountNotPositive | NotLevelTwo | HasSubaccounts | NotOwned | Unbalanced
    | UnknownEntry | NotReversible | AlreadyReversed | NothingToReverse
    // accounts
    | UnknownParent | CodesExhausted | NotMovement | CodeTaken
    // opening
    | CapitalNotPositive | UnknownInventoryKind
    // logical exercises
    | InvalidChain | NoChain
    // closing request
    | NoOpenExercise | BeforeExerciseStart | PeriodAlreadyClosed | LaterEntriesExist
    | ReopeningNotLater | DuplicateClosing | DuplicateReopening
    // closing plan
    | AssetSide | LiabilitySide | EquitySide | NegativeResultSide | PositiveResultSide
    | NothingToClose | SupportUnavailable
    // demo payload
    | InvalidDemo

  datatype Result<+T> = Ok(value: T) | Err(error: Error) {
    predicate IsFailure() { Err? }

    function PropagateFailure<U>(): Result<U>
      requires Err?
    {
      Err(error)
    }

    function Extract(): T
      requires Ok?
    {
      value
    }
  }

  /** A fold that goes no further than its first failure. */
  ghost predicate StopsAtFailure<X(!new), S>(fold: seq<X> -> Result<S>) {
    forall xs: seq<X> :: xs != [] && fold(xs[..|xs| - 1]).Err? ==> fold(xs) == fold(xs[..|xs| - 1])
  }

  /** Once a prefix has failed, the whole fails in the same way. */
  lemma {:induction false} FirstFailure<X(!new), S>(fold: seq<X> -> Result<S>, xs: seq<X>, i: nat)
    requires StopsAtFailure(fold) && i <= |xs| && fold(xs[..i]).Err?
    ensures fold(xs) == fold(xs[..i])
    decreases |xs|
  {
    if i < |xs| {
      assert xs[..|xs| - 1][..i] == xs[..i];
      FirstFailure(fold, xs[..|xs| - 1], i);
    } else {
      assert xs[..i] == xs;
    }
  }

  function Max(a: int, b: int): int { if a >= b then a else b }

  /** The part of an amount above zero. */
  function Positive(n: int): nat { if n > 0 then n else 0 }
}

/** `order_by`: a stable sort on a pair of integers compared lexicographically. */
module Sorting {

  predicate AtMost(a: (int, int), b: (int, int)) {
    a.0 < b.0 || (a.0 == b.0 && a.1 <= b.1)
  }

  ghost predicate Sorted<T>(s: seq<T>, rank: T -> (int, int)) {
    forall i, j :: 0 <= i < j < |s| ==> AtMost(rank(s[i]), rank(s[j]))
  }

  function Insert<T>(x: T, s: seq<T>, rank: T -> (int, int)): seq<T> {
    if s == [] || AtMost(rank(x), rank(s[0])) then [x] + s
    else [s[0]] + Insert(x, s[1..], rank)
  }

  function Sort<T>(s: seq<T>, rank: T -> (int, int)): seq<T> {
    if s == [] then [] else Insert(s[0], Sort(s[1..], rank), rank)
  }

  lemma {:induction false} InsertAdds<T>(x: T, s: seq<T>, rank: T -> (int, int))
    ensures multiset(Insert(x, s, rank)) == multiset{x} + multiset(s)
  {
    if s != [] && !AtMost(rank(x), rank(s[0])) {
      InsertAdds(x, s[1..], rank);
      assert s == [s[0]] + s[1..];
    }
  }

  lemma Precedes<T>(x: T, s: seq<T>, rank: T -> (int, int))
    requires Sorted(s, rank) && forall y :: y in s ==> AtMost(rank(x), rank(y))
    ensures Sorted([x] + s, rank)
  {
  }

  lemma HeadIsLeast<T>(s: seq<T>, rank: T -> (int, int))
    requires Sorted(s, rank) && s != []
    ensures forall y :: y in s[1..] ==> AtMost(rank(s[0]), rank(y))
  {
  }

  lemma {:induction false} InsertKeeps<T>(x: T, s: seq<T>, rank: T -> (int, int))
    requires Sorted(s, rank)
    ensures Sorted(Insert(x, s, rank), rank)
  {
    if s == [] || AtMost(rank(x), rank(s[0])) {
      forall y | y in s ensures AtMost(rank(x), rank(y)) {
      }
      Precedes(x, s, rank);
    } else {
      InsertKeeps(x, s[1..], rank);
      InsertAdds(x, s[1..], rank);
      HeadIsLeast(s, rank);
      forall y | y in Insert(x, s[1..], rank) ensures AtMost(rank(s[0]), rank(y)) {
        assert y in multiset(Insert(x, s[1..], rank));
        if y != x {
          assert y in s[1..];
        }
      }
      Precedes(s[0], Insert(x, s[1..], rank), rank);
    }
  }

  /** A sort permutes its input into rank order. */
  lemma {:induction false} SortSorts<T>(s: seq<T>, rank: T -> (int, int))
    ensures Sorted(Sort(s, rank), rank)
    ensures multiset(Sort(s, rank)) == multiset(s)
    ensures |Sort(s, rank)| == |s|
  {
    if s != [] {
      SortSorts(s[1..], rank);
      InsertKeeps(s[0], Sort(s[1..], rank), rank);
      InsertAdds(s[0], Sort(s[1..], rank), rank);
      assert s == [s[0]] + s[1..];
    }
    assert |multiset(Sort(s, rank))| == |Sort(s, rank)|;
    assert |multiset(s)| == |s|;
  }

  /** Sorting leaves a sequence that is already in order alone. */
  lemma {:induction false} SortedIsFixed<T>(s: seq<T>, rank: T -> (int, int))
    requires Sorted(s, rank)
    ensures Sort(s, rank) == s
  {
    if s != [] {
      SortedIsFixed(s[1..], rank);
      assert s == [s[0]] + s[1..];
    }
  }

  lemma SortMembers<T>(s: seq<T>, rank: T -> (int, int))
    ensures forall x :: x in Sort(s, rank) <==> x in s
  {
    SortSorts(s, rank);
    forall x ensures x in Sort(s, rank) <==> x in s {
      assert x in Sort(s, rank) <==> x in multiset(Sort(s, rank));
      assert x in s <==> x in multiset(s);
    }
  }

  ghost predicate NoRepeats<T>(s: seq<T>) { forall i, j :: 0 <= i < j < |s| ==> s[i] != s[j] }

  lemma {:induction false} CountedOnce<T>(s: seq<T>, x: T)
    requires NoRepeats(s)
    ensures multiset(s)[x] <= 1
  {
    if s != [] {
      CountedOnce(s[1..], x);
      assert s == [s[0]] + s[1..];
      if x == s[0] {
        assert x !in s[1..];
      }
    }
  }

  lemma OnceEach<T>(s: seq<T>)
    requires forall x :: multiset(s)[x] <= 1
    ensures NoRepeats(s)
  {
    forall i, j | 0 <= i < j < |s| ensures s[i] != s[j] {
      var a, b := s[..i + 1], s[i + 1..];
      assert s == a + b;
      assert a[i] == s[i] && b[j - i - 1] == s[j];
      assert multiset(a)[s[i]] >= 1 && multiset(b)[s[j]] >= 1;
      var x := s[i];
      assert multiset(s)[x] == multiset(a)[x] + multiset(b)[x] <= 1;
    }
  }

  /** Sorting a sequence without repeats makes none. */
  lemma SortRepeatsNone<T>(s: seq<T>, rank: T -> (int, int))
    requires NoRepeats(s)
    ensures NoRepeats(Sort(s, rank))
  {
    SortSorts(s, rank);
    forall x ensures multiset(Sort(s, rank))[x] <= 1 {
      CountedOnce(s, x);
    }
    OnceEach(Sort(s, rank));
  }
}
