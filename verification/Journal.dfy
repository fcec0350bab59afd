/** The journal service: validation, numbering, the period lock, posting and reversal. */
module Journal {
  import opened Basics
  import opened Model
  import opened Turnovers

  /** What a line must satisfy on its own to be posted. */
  predicate LineOk(accounts: seq<Account>, l: Line) {
    l.amount > 0 && l.account < |accounts| && accounts[l.account].Movement()
    && accounts[l.account].owner == ThisCompany
  }

  predicate HasSide(lines: seq<Line>, side: Side) { exists l :: l in lines && l.side == side }

  lemma HasSideOneMore(lines: seq<Line>, l: Line)
    ensures forall side :: HasSide(lines + [l], side) <==> HasSide(lines, side) || l.side == side
  {
    forall side | HasSide(lines, side) || l.side == side ensures HasSide(lines + [l], side) {
      if HasSide(lines, side) {
        var k :| k in lines && k.side == side;
        assert k in lines + [l];
      } else {
        assert l in lines + [l];
      }
    }
  }

  /** A balanced asiento over movement accounts of the company, with both sides present. */
  ghost predicate Postable(accounts: seq<Account>, lines: seq<Line>) {
    && (forall l :: l in lines ==> LineOk(accounts, l))
    && HasSide(lines, Debit) && HasSide(lines, Credit)
    && Net(lines, Everything()) == 0
  }

  function LineFault(accounts: seq<Account>, l: Line): (r: Option<Error>)
    requires l.account < |accounts|
    ensures r.None? <==> LineOk(accounts, l)
  {
    if l.amount <= 0 then Some(AmountNotPositive)
    else if accounts[l.account].level != 2 then Some(NotLevelTwo)
    else if !accounts[l.account].leaf then Some(HasSubaccounts)
    else if accounts[l.account].owner != ThisCompany then Some(NotOwned)
    else None
  }

  /** The fault of the first faulty line. */
  function FirstFault(accounts: seq<Account>, lines: seq<Line>): (r: Option<Error>)
    requires forall l :: l in lines ==> l.account < |accounts|
    ensures r.None? <==> forall l :: l in lines ==> LineOk(accounts, l)
  {
    if lines == [] then None
    else
      assert lines == [lines[0]] + lines[1..];
      var f := LineFault(accounts, lines[0]);
      if f.Some? then f else FirstFault(accounts, lines[1..])
  }

  /** The error `_validate_lines` raises, if any. */
  function LinesVerdict(accounts: seq<Account>, lines: seq<Line>): Option<Error> {
    if lines == [] then Some(MissingSide)
    else if exists l :: l in lines && l.account >= |accounts| then Some(UnknownAccount)
    else if FirstFault(accounts, lines).Some? then FirstFault(accounts, lines)
    else if !HasSide(lines, Debit) || !HasSide(lines, Credit) then Some(MissingSide)
    else if Net(lines, Everything()) != 0 then Some(Unbalanced)
    else None
  }

  /** Validation accepts exactly the postable lines. */
  lemma VerdictIsPostable(accounts: seq<Account>, lines: seq<Line>)
    ensures LinesVerdict(accounts, lines).None? <==> Postable(accounts, lines)
  {
    if Postable(accounts, lines) {
      assert forall l :: l in lines ==> LineOk(accounts, l);
    }
  }

  /** In full: positive amounts on leaf accounts of level 2 that the company owns, something on each side, and as much on
      the one as on the other. */
  lemma AcceptedLines(accounts: seq<Account>, lines: seq<Line>)
    ensures LinesVerdict(accounts, lines).None? <==>
              && (forall l :: l in lines ==>
                    && l.amount > 0 && l.account < |accounts| && accounts[l.account].level == 2
                    && accounts[l.account].leaf && accounts[l.account].owner == ThisCompany)
              && (exists l :: l in lines && l.side == Debit) && (exists l :: l in lines && l.side == Credit)
              && Turnover(lines, Debit, Everything()) == Turnover(lines, Credit, Everything())
  {
    VerdictIsPostable(accounts, lines);
  }

  /** Of faulty lines the first one decides the error, by the first of its faults. */
  lemma {:induction false} FaultyLine(accounts: seq<Account>, lines: seq<Line>, i: nat)
    requires forall l :: l in lines ==> l.account < |accounts|
    requires i < |lines| && !LineOk(accounts, lines[i]) && forall k :: 0 <= k < i ==> LineOk(accounts, lines[k])
    ensures var l := lines[i];
            LinesVerdict(accounts, lines)
            == Some(if l.amount <= 0 then AmountNotPositive
                    else if accounts[l.account].level != 2 then NotLevelTwo
                    else if !accounts[l.account].leaf then HasSubaccounts
                    else NotOwned)
  {
    if i > 0 {
      FaultyLine(accounts, lines[1..], i - 1);
      assert LineFault(accounts, lines[0]).None?;
    }
  }

  method ValidateLines(accounts: seq<Account>, lines: seq<Line>) returns (fault: Option<Error>)
    ensures fault == LinesVerdict(accounts, lines)
  {
    if lines == [] {
      return Some(MissingSide);
    }
    if exists l :: l in lines && l.account >= |accounts| {
      return Some(UnknownAccount);
    }
    var debitTotal, creditTotal, hasDebit, hasCredit := 0, 0, false, false;
    for i := 0 to |lines|
      invariant forall l :: l in lines[..i] ==> LineOk(accounts, l)
      invariant FirstFault(accounts, lines) == FirstFault(accounts, lines[i..])
      invariant debitTotal == Turnover(lines[..i], Debit, Everything())
      invariant creditTotal == Turnover(lines[..i], Credit, Everything())
      invariant hasDebit <==> HasSide(lines[..i], Debit)
      invariant hasCredit <==> HasSide(lines[..i], Credit)
    {
      var l := lines[i];
      assert lines[..i + 1] == lines[..i] + [l];
      assert lines[i..][0] == l && lines[i..][1..] == lines[i + 1..];
      TurnoverConcat(lines[..i], [l], Debit, Everything());
      TurnoverConcat(lines[..i], [l], Credit, Everything());
      HasSideOneMore(lines[..i], l);
      if l.amount <= 0 {
        return Some(AmountNotPositive);
      }
      var account := accounts[l.account];
      if account.level != 2 {
        return Some(NotLevelTwo);
      }
      if !account.leaf {
        return Some(HasSubaccounts);
      }
      if account.owner != ThisCompany {
        return Some(NotOwned);
      }
      if l.side == Debit {
        debitTotal, hasDebit := debitTotal + l.amount, true;
      } else {
        creditTotal, hasCredit := creditTotal + l.amount, true;
      }
    }
    assert lines[..|lines|] == lines;
    if !hasDebit || !hasCredit {
      return Some(MissingSide);
    }
    if debitTotal != creditTotal {
      return Some(Unbalanced);
    }
    return None;
  }

  predicate HasOpening(entries: seq<Entry>) {
    exists e :: e in entries && e.source == Opening
  }

  predicate Closed(closedUntil: Option<Date>, date: Date) {
    closedUntil.Some? && date <= closedUntil.value
  }

  /** `entry_number` of the last entry by number. */
  function LastNumber(entries: seq<Entry>): nat {
    if entries == [] then 0
    else var m := LastNumber(entries[..|entries| - 1]);
         var n := entries[|entries| - 1].number;
         if n > m then n else m
  }

  predicate Numbered(entries: seq<Entry>) {
    forall i :: 0 <= i < |entries| ==> entries[i].number == i + 1
  }

  /** Numbering is gap-free: a journal numbered 1..n continues with n + 1. */
  lemma {:induction false} NextNumber(entries: seq<Entry>)
    requires Numbered(entries)
    ensures LastNumber(entries) == |entries|
  {
    if entries != [] {
      NextNumber(entries[..|entries| - 1]);
    }
  }

  function Append(b: Books, date: Date, source: SourceType, lines: seq<Line>, reversalOf: Option<nat>): Books {
    b.(entries := b.entries + [Entry(LastNumber(b.entries) + 1, date, source, lines, reversalOf)])
  }

  /** `create_journal_entry`. */
  function Post(b: Books, date: Date, source: SourceType, lines: seq<Line>): Result<Books> {
    if source == Opening && HasOpening(b.entries) then Err(AlreadyOpened)
    else if source == Opening && b.entries != [] then Err(OpeningNotFirst)
    else if source != Opening && !HasOpening(b.entries) then Err(NotOpened)
    else if Closed(b.closedUntil, date) then Err(PeriodClosed)
    else match LinesVerdict(b.accounts, lines)
      case Some(error) => Err(error)
      case None => Ok(Append(b, date, source, lines, None))
  }

  /** A posting is accepted exactly when it is a postable asiento dated in open books, and either the company's first
      entry and its opening, or neither. */
  lemma PostIff(b: Books, date: Date, source: SourceType, lines: seq<Line>)
    ensures Post(b, date, source, lines).Ok? <==>
              && !Closed(b.closedUntil, date) && Postable(b.accounts, lines)
              && (if source == Opening then b.entries == [] else HasOpening(b.entries))
  {
    VerdictIsPostable(b.accounts, lines);
  }

  /** The entry with a given number. */
  predicate IsEntry(entries: seq<Entry>, number: nat) {
    exists e :: e in entries && e.number == number
  }

  function Find(entries: seq<Entry>, number: nat): (e: Entry)
    requires IsEntry(entries, number)
    ensures e in entries && e.number == number
  {
    if entries[0].number == number then entries[0] else
      assert entries == [entries[0]] + entries[1..];
      Find(entries[1..], number)
  }

  /** `reverse_journal_entry`. */
  function Reverse(b: Books, number: nat, date: Date): Result<Books> {
    if !HasOpening(b.entries) then Err(NotOpened)
    else if !IsEntry(b.entries, number) then Err(UnknownEntry)
    else
      var original := Find(b.entries, number);
      if original.source.Reserved() then Err(NotReversible)
      else if exists e :: e in b.entries && e.reversalOf == Some(number) then Err(AlreadyReversed)
      else if Closed(b.closedUntil, date) then Err(PeriodClosed)
      else if original.lines == [] then Err(NothingToReverse)
      else Ok(Append(b, date, Other, Swapped(original.lines), Some(number)))
  }

  /** A service call either reaches the specified books or, failing, leaves them as they were. */
  ghost predicate Outcome(before: Books, spec: Result<Books>, after: Books, failure: Option<Error>) {
    match spec
    case Ok(books) => failure.None? && after == books
    case Err(error) => failure == Some(error) && after == before
  }

  method CreateJournalEntry(company: Company, date: Date, source: SourceType, lines: seq<Line>)
      returns (failure: Option<Error>)
    modifies company
    ensures Outcome(old(company.State()), Post(old(company.State()), date, source, lines), company.State(), failure)
  {
    if source == Opening {
      if HasOpening(company.entries) {
        return Some(AlreadyOpened);
      }
      if company.entries != [] {
        return Some(OpeningNotFirst);
      }
    } else if !HasOpening(company.entries) {
      return Some(NotOpened);
    }
    if Closed(company.closedUntil, date) {
      return Some(PeriodClosed);
    }
    failure := ValidateLines(company.accounts, lines);
    if failure.Some? {
      return;
    }
    var number := LastNumber(company.entries) + 1;
    company.entries := company.entries + [Entry(number, date, source, lines, None)];
  }

  method ReverseJournalEntry(company: Company, number: nat, date: Date) returns (failure: Option<Error>)
    modifies company
    ensures Outcome(old(company.State()), Reverse(old(company.State()), number, date), company.State(), failure)
  {
    if !HasOpening(company.entries) {
      return Some(NotOpened);
    }
    if !IsEntry(company.entries, number) {
      return Some(UnknownEntry);
    }
    var original := Find(company.entries, number);
    if original.source.Reserved() {
      return Some(NotReversible);
    }
    if exists e :: e in company.entries && e.reversalOf == Some(number) {
      return Some(AlreadyReversed);
    }
    if Closed(company.closedUntil, date) {
      return Some(PeriodClosed);
    }
    if original.lines == [] {
      return Some(NothingToReverse);
    }
    var reversed: seq<Line> := [];
    for i := 0 to |original.lines|
      invariant reversed == Swapped(original.lines)[..i]
    {
      var l := original.lines[i];
      reversed := reversed + [Line(l.account, if l.side == Debit then Credit else Debit, l.amount)];
    }
    assert reversed == Swapped(original.lines);
    var next := LastNumber(company.entries) + 1;
    company.entries := company.entries + [Entry(next, date, Other, reversed, Some(number))];
    return None;
  }

  /** Swapping keeps an asiento postable. */
  lemma SwappedPostable(accounts: seq<Account>, lines: seq<Line>)
    requires Postable(accounts, lines)
    ensures Postable(accounts, Swapped(lines))
  {
    var swapped := Swapped(lines);
    forall l | l in swapped ensures LineOk(accounts, l) {
      var i :| 0 <= i < |lines| && swapped[i] == l;
      assert lines[i] in lines;
    }
    var d :| d in lines && d.side == Debit;
    var c :| c in lines && c.side == Credit;
    var i :| 0 <= i < |lines| && lines[i] == d;
    var j :| 0 <= j < |lines| && lines[j] == c;
    assert swapped[i] in swapped && swapped[j] in swapped;
    SwappedTurnover(lines, Debit, Everything());
    SwappedTurnover(lines, Credit, Everything());
  }

  /** Entries that are each balanced balance together. */
  lemma {:induction false} EntriesBalance(entries: seq<Entry>, w: Window)
    requires forall e :: e in entries ==> Net(e.lines, Everything()) == 0
    ensures Net(LinesIn(entries, w), Everything()) == 0
  {
    if entries != [] {
      assert entries == [entries[0]] + entries[1..];
      EntriesBalance(entries[1..], w);
      NetConcat(if w.Has(entries[0].date) then entries[0].lines else [], LinesIn(entries[1..], w), Everything());
    }
  }
}
