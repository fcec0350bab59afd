/** The records of one company's books. Amounts are cents and dates are day numbers. */
module Model {
  import opened Basics

  type AccountId = nat
  type Date = int

  /** A colectiva: `Code(1, 9)` is "1.09". Its root is the rubro, "1" to "5" in the chart. */
  datatype Code = Code(root: nat, local: nat)

  datatype Owner = Unlinked | ThisCompany | OtherCompany

  /** A row of the account table. The table is global and an account's id is its position in it.
      `owner` is the CompanyAccount link. */
  datatype Account = Account(parent: Code, suffix: nat, name: string, level: nat, leaf: bool, owner: Owner) {
    predicate Movement() { level == 2 && leaf }
  }

  datatype Side = Debit | Credit

  function Opposite(s: Side): Side { if s.Debit? then Credit else Debit }

  datatype Line = Line(account: AccountId, side: Side, amount: int)

  datatype SourceType =
    | Opening | Adjustment | ResultClosing | PatrimonialClosing | Reopening
    | Manual | Invoice | Receipt | Other
  {
    predicate Boundary() { Opening? || PatrimonialClosing? || Reopening? }
    /** Types that only a dedicated flow may post, and that cannot be reversed. */
    predicate Reserved() { Boundary() || Adjustment? || ResultClosing? }
  }

  /** An asiento. Its number identifies it within the company. */
  datatype Entry = Entry(number: nat, date: Date, source: SourceType, lines: seq<Line>, reversalOf: Option<nat>)

  /** What a draft line or a balance node says about its account: `id` is absent for a virtual account. */
  datatype AccountRef = AccountRef(id: Option<AccountId>, suffix: Option<nat>, name: string, parent: Code)

  datatype SnapshotLine = SnapshotLine(ref: AccountRef, debitBalance: int, creditBalance: int)

  datatype BalanceSheet = BalanceSheet(assets: int, liabilities: int, equity: int, netResult: int) {
    /** Equity as the sheet shows it, with the result of the exercise. */
    function TotalEquity(): int { equity + netResult }
    predicate IsBalanced() { assets == liabilities + TotalEquity() }
  }

  datatype Snapshot = Snapshot(closingEntry: nat, reopeningEntry: nat, closingDate: Date, reopeningDate: Date,
                               sheet: BalanceSheet, lines: seq<SnapshotLine>)

  /** Everything one company's accounting depends on. `chart` holds the colectivas that exist. */
  datatype Books = Books(accounts: seq<Account>, chart: set<Code>, entries: seq<Entry>,
                         closedUntil: Option<Date>, snapshots: seq<Snapshot>)

  /** The company row and the tables hanging from it, updated in place by the services. */
  class Company {
    var accounts: seq<Account>
    var chart: set<Code>
    var entries: seq<Entry>
    var closedUntil: Option<Date>
    var snapshots: seq<Snapshot>

    constructor (books: Books)
      ensures State() == books
    {
      accounts, chart, entries := books.accounts, books.chart, books.entries;
      closedUntil, snapshots := books.closedUntil, books.snapshots;
    }

    function State(): Books
      reads this
    {
      Books(accounts, chart, entries, closedUntil, snapshots)
    }

    /** The rollback of an atomic block. */
    method Restore(books: Books)
      modifies this
      ensures State() == books
    {
      accounts, chart, entries := books.accounts, books.chart, books.entries;
      closedUntil, snapshots := books.closedUntil, books.snapshots;
    }
  }
}

/** Sums over posted lines. */
module Turnovers {
  import opened Basics
  import opened Model

  /** A range of dates, open-ended where a bound is absent. */
  datatype Window = Window(from: Option<Date>, until: Option<Date>) {
    predicate Has(d: Date) {
      (from.Some? ==> from.value <= d) && (until.Some? ==> d <= until.value)
    }
  }

  function UpTo(d: Date): Window { Window(None, Some(d)) }
  function After(d: Date, until: Date): Window { Window(Some(d + 1), Some(until)) }
  function Between(a: Date, b: Date): Window { Window(Some(a), Some(b)) }
  function Always(): Window { Window(None, None) }

  function Everything(): AccountId -> bool { a => true }
  function Only(id: AccountId): AccountId -> bool { a => a == id }

  /** The amounts on one side of the lines whose account is selected. */
  function Turnover(lines: seq<Line>, side: Side, sel: AccountId -> bool): int {
    if lines == [] then 0
    else (if lines[0].side == side && sel(lines[0].account) then lines[0].amount else 0)
         + Turnover(lines[1..], side, sel)
  }

  /** Debits minus credits. */
  function Net(lines: seq<Line>, sel: AccountId -> bool): int {
    Turnover(lines, Debit, sel) - Turnover(lines, Credit, sel)
  }

  lemma {:induction false} TurnoverConcat(a: seq<Line>, b: seq<Line>, side: Side, sel: AccountId -> bool)
    ensures Turnover(a + b, side, sel) == Turnover(a, side, sel) + Turnover(b, side, sel)
  {
    if a == [] {
      assert a + b == b;
    } else {
      assert (a + b)[1..] == a[1..] + b;
      TurnoverConcat(a[1..], b, side, sel);
    }
  }

  lemma NetConcat(a: seq<Line>, b: seq<Line>, sel: AccountId -> bool)
    ensures Net(a + b, sel) == Net(a, sel) + Net(b, sel)
  {
    TurnoverConcat(a, b, Debit, sel);
    TurnoverConcat(a, b, Credit, sel);
  }

  lemma OneLineNet(l: Line, sel: AccountId -> bool)
    ensures Net([l], sel) == if !sel(l.account) then 0 else if l.side == Debit then l.amount else -l.amount
  {
    assert Turnover([l][1..], Debit, sel) == 0 && Turnover([l][1..], Credit, sel) == 0;
  }

  /** The lines of the entries dated in a window, in entry order. */
  function LinesIn(entries: seq<Entry>, w: Window): seq<Line> {
    if entries == [] then []
    else (if w.Has(entries[0].date) then entries[0].lines else []) + LinesIn(entries[1..], w)
  }

  lemma {:induction false} LinesInConcat(a: seq<Entry>, b: seq<Entry>, w: Window)
    ensures LinesIn(a + b, w) == LinesIn(a, w) + LinesIn(b, w)
  {
    if a == [] {
      assert a + b == b;
    } else {
      assert (a + b)[1..] == a[1..] + b;
      LinesInConcat(a[1..], b, w);
    }
  }

  /** A window that splits in two splits every turnover. */
  lemma {:induction false} WindowSplit(entries: seq<Entry>, w: Window, u: Window, v: Window, side: Side,
                                       sel: AccountId -> bool)
    requires forall d :: w.Has(d) <==> u.Has(d) || v.Has(d)
    requires forall d :: !(u.Has(d) && v.Has(d))
    ensures Turnover(LinesIn(entries, w), side, sel)
         == Turnover(LinesIn(entries, u), side, sel) + Turnover(LinesIn(entries, v), side, sel)
  {
    if entries != [] {
      var e := entries[0];
      WindowSplit(entries[1..], w, u, v, side, sel);
      TurnoverConcat(if w.Has(e.date) then e.lines else [], LinesIn(entries[1..], w), side, sel);
      TurnoverConcat(if u.Has(e.date) then e.lines else [], LinesIn(entries[1..], u), side, sel);
      TurnoverConcat(if v.Has(e.date) then e.lines else [], LinesIn(entries[1..], v), side, sel);
    }
  }

  lemma NetSplit(entries: seq<Entry>, w: Window, u: Window, v: Window, sel: AccountId -> bool)
    requires forall d :: w.Has(d) <==> u.Has(d) || v.Has(d)
    requires forall d :: !(u.Has(d) && v.Has(d))
    ensures Net(LinesIn(entries, w), sel) == Net(LinesIn(entries, u), sel) + Net(LinesIn(entries, v), sel)
  {
    WindowSplit(entries, w, u, v, Debit, sel);
    WindowSplit(entries, w, u, v, Credit, sel);
  }

  /** Windows that agree on the dates of the entries select the same lines. */
  lemma {:induction false} SameLines(entries: seq<Entry>, w: Window, u: Window)
    requires forall e :: e in entries ==> (w.Has(e.date) <==> u.Has(e.date))
    ensures LinesIn(entries, w) == LinesIn(entries, u)
  {
    if entries != [] {
      assert entries[0] in entries;
      assert forall e :: e in entries[1..] ==> e in entries;
      SameLines(entries[1..], w, u);
    }
  }

  lemma {:induction false} NoLines(entries: seq<Entry>, w: Window)
    requires forall e :: e in entries ==> !w.Has(e.date)
    ensures LinesIn(entries, w) == []
  {
    if entries != [] {
      assert entries[0] in entries;
      assert forall e :: e in entries[1..] ==> e in entries;
      NoLines(entries[1..], w);
    }
  }

  lemma {:induction false} LineOfEntry(entries: seq<Entry>, w: Window, l: Line)
    requires l in LinesIn(entries, w)
    ensures exists e :: e in entries && w.Has(e.date) && l in e.lines
  {
    if w.Has(entries[0].date) && l in entries[0].lines {
      assert entries[0] in entries;
    } else {
      LineOfEntry(entries[1..], w, l);
      var e :| e in entries[1..] && w.Has(e.date) && l in e.lines;
      assert e in entries;
    }
  }

  function Swap(l: Line): Line { l.(side := Opposite(l.side)) }

  /** Every line with debit and credit exchanged. */
  function Swapped(lines: seq<Line>): seq<Line> {
    seq(|lines|, i requires 0 <= i < |lines| => Swap(lines[i]))
  }

  lemma {:induction false} SwappedTurnover(lines: seq<Line>, side: Side, sel: AccountId -> bool)
    ensures Turnover(Swapped(lines), side, sel) == Turnover(lines, Opposite(side), sel)
  {
    if lines != [] {
      assert Swapped(lines)[1..] == Swapped(lines[1..]);
      SwappedTurnover(lines[1..], side, sel);
    }
  }

  /** Swapping twice gives the original lines back. */
  lemma SwappedTwice(lines: seq<Line>)
    ensures Swapped(Swapped(lines)) == lines
  {
    assert forall i :: 0 <= i < |lines| ==> Swap(Swap(lines[i])) == lines[i];
  }
}
