/** The account table is shared: a row of another company shows up in none of this company's reports. */
module SharedTable {
  import opened Basics
  import opened Sorting
  import opened Model
  import opened Turnovers
  import opened AccountResolution
  import opened Exercises
  import opened Balances
  import opened ReportQueries
  import JournalBook
  import Ledger
  import opened TrialBalance

  /** The accounts listed, without one of them. */
  function Without(ids: seq<AccountId>, id: AccountId): seq<AccountId> {
    if ids == [] then []
    else if ids[0] == id then Without(ids[1..], id)
    else [ids[0]] + Without(ids[1..], id)
  }

  lemma {:induction false} WithoutMembers(ids: seq<AccountId>, id: AccountId)
    ensures forall x :: x in Without(ids, id) <==> x in ids && x != id
  {
    if ids != [] {
      WithoutMembers(ids[1..], id);
      assert ids == [ids[0]] + ids[1..];
    }
  }

  lemma {:induction false} WithoutAbsent(ids: seq<AccountId>, id: AccountId)
    requires id !in ids
    ensures Without(ids, id) == ids
  {
    if ids != [] {
      WithoutAbsent(ids[1..], id);
      assert ids[0] in ids;
      assert ids == [ids[0]] + ids[1..];
    }
  }

  lemma {:induction false} WithoutConcat(a: seq<AccountId>, b: seq<AccountId>, id: AccountId)
    ensures Without(a + b, id) == Without(a, id) + Without(b, id)
  {
    if a == [] {
      assert a + b == b;
    } else {
      assert (a + b)[1..] == a[1..] + b;
      WithoutConcat(a[1..], b, id);
    }
  }

  // Sorting with one account more.

  lemma InsertFirst(x: AccountId, s: seq<AccountId>, rank: AccountId -> (int, int))
    requires forall y :: y in s ==> AtMost(rank(x), rank(y))
    ensures Insert(x, s, rank) == [x] + s
  {
    if s != [] {
      assert s[0] in s;
    }
  }

  /** What comes after an element a new one goes in front of ranks no lower either. */
  lemma RanksAbove(x: AccountId, s: seq<AccountId>, rank: AccountId -> (int, int))
    requires Sorted(s, rank) && s != [] && AtMost(rank(x), rank(s[0]))
    ensures forall y :: y in s ==> AtMost(rank(x), rank(y))
  {
    forall y | y in s ensures AtMost(rank(x), rank(y)) {
      var i :| 0 <= i < |s| && s[i] == y;
      if i > 0 {
        assert AtMost(rank(s[0]), rank(s[i]));
      }
    }
  }

  lemma {:induction false} InsertWithout(x: AccountId, s: seq<AccountId>, rank: AccountId -> (int, int), id: AccountId)
    requires Sorted(s, rank) && x != id
    ensures Without(Insert(x, s, rank), id) == Insert(x, Without(s, id), rank)
  {
    if s == [] {
      assert Insert(x, s, rank) == [x] && [x][1..] == [];
    } else if AtMost(rank(x), rank(s[0])) {
      RanksAbove(x, s, rank);
      WithoutMembers(s, id);
      InsertFirst(x, Without(s, id), rank);
      assert Insert(x, s, rank)[1..] == s;
    } else {
      InsertWithout(x, s[1..], rank, id);
      assert Insert(x, s, rank)[1..] == Insert(x, s[1..], rank);
      if s[0] != id {
        assert Without(s, id)[0] == s[0] && Without(s, id)[1..] == Without(s[1..], id);
      }
    }
  }

  lemma {:induction false} InsertedGone(s: seq<AccountId>, rank: AccountId -> (int, int), id: AccountId)
    ensures Without(Insert(id, s, rank), id) == Without(s, id)
  {
    if s == [] || AtMost(rank(id), rank(s[0])) {
      assert Insert(id, s, rank)[1..] == s;
    } else {
      InsertedGone(s[1..], rank, id);
      assert Insert(id, s, rank)[1..] == Insert(id, s[1..], rank);
    }
  }

  lemma {:induction false} SortWithout(s: seq<AccountId>, rank: AccountId -> (int, int), id: AccountId)
    ensures Without(Sort(s, rank), id) == Sort(Without(s, id), rank)
  {
    if s != [] {
      SortWithout(s[1..], rank, id);
      if s[0] == id {
        InsertedGone(Sort(s[1..], rank), rank, id);
      } else {
        SortSorts(s[1..], rank);
        InsertWithout(s[0], Sort(s[1..], rank), rank, id);
        assert Without(s, id)[0] == s[0] && Without(s, id)[1..] == Without(s[1..], id);
      }
    }
  }

  lemma {:induction false} InsertSameRank(x: AccountId, s: seq<AccountId>, rank: AccountId -> (int, int),
                                          rank': AccountId -> (int, int))
    requires rank(x) == rank'(x) && forall y :: y in s ==> rank(y) == rank'(y)
    ensures Insert(x, s, rank) == Insert(x, s, rank')
  {
    if s != [] {
      assert s[0] in s && forall y :: y in s[1..] ==> y in s;
      InsertSameRank(x, s[1..], rank, rank');
    }
  }

  lemma {:induction false} SortSameRank(s: seq<AccountId>, rank: AccountId -> (int, int), rank': AccountId -> (int, int))
    requires forall y :: y in s ==> rank(y) == rank'(y)
    ensures Sort(s, rank) == Sort(s, rank')
  {
    if s != [] {
      assert s[0] in s && forall y :: y in s[1..] ==> y in s;
      SortSameRank(s[1..], rank, rank');
      SortMembers(s[1..], rank);
      InsertSameRank(s[0], Sort(s[1..], rank), rank, rank');
    }
  }

  lemma ByCodeIs(accounts: seq<Account>, n: nat)
    requires n == |accounts|
    ensures ByCode(accounts) == Sort(Ids(n), CodeRank(accounts))
  {
  }

  lemma SameRanks(accounts: seq<Account>, a: Account)
    ensures forall id :: id in Ids(|accounts|) ==> CodeRank(accounts + [a])(id) == CodeRank(accounts)(id)
  {
  }

  lemma OneMoreId(n: nat)
    ensures Without(Ids(n + 1), n) == Ids(n)
  {
    assert Ids(n + 1) == Ids(n) + [n];
    WithoutConcat(Ids(n), [n], n);
    WithoutAbsent(Ids(n), n);
    assert [n][1..] == [];
  }

  /** A new row only adds its account to the order by code. */
  lemma OneMoreByCode(accounts: seq<Account>, a: Account)
    ensures Without(ByCode(accounts + [a]), |accounts|) == ByCode(accounts)
  {
    hide *;
    var n := |accounts|;
    ByCodeIs(accounts, n);
    ByCodeIs(accounts + [a], n + 1);
    SortWithout(Ids(n + 1), CodeRank(accounts + [a]), n);
    OneMoreId(n);
    SameRanks(accounts, a);
    SortSameRank(Ids(n), CodeRank(accounts + [a]), CodeRank(accounts));
  }

  // What the reports list.

  lemma {:induction false} OwnedConcat(a: seq<AccountId>, b: seq<AccountId>, accounts: seq<Account>)
    ensures Ledger.Owned(a + b, accounts) == Ledger.Owned(a, accounts) + Ledger.Owned(b, accounts)
  {
    if b == [] {
      assert a + b == a;
    } else {
      var n := |b| - 1;
      assert (a + b)[..|a| + n] == a + b[..n];
      OwnedConcat(a, b[..n], accounts);
    }
  }

  lemma {:induction false} OwnedWithout(ids: seq<AccountId>, accounts: seq<Account>, id: AccountId)
    requires id < |accounts| && accounts[id].owner != ThisCompany
    ensures Ledger.Owned(Without(ids, id), accounts) == Ledger.Owned(ids, accounts)
  {
    if ids != [] {
      assert ids == [ids[0]] + ids[1..];
      OwnedWithout(ids[1..], accounts, id);
      OwnedConcat([ids[0]], ids[1..], accounts);
      OwnedConcat([ids[0]], Without(ids[1..], id), accounts);
      assert [ids[0]][..0] == [];
    }
  }

  lemma {:induction false} OwnedSameTable(ids: seq<AccountId>, accounts: seq<Account>, a: Account)
    requires forall id :: id in ids ==> id < |accounts|
    ensures Ledger.Owned(ids, accounts + [a]) == Ledger.Owned(ids, accounts)
  {
    if ids != [] {
      var n := |ids| - 1;
      assert forall id :: id in ids[..n] ==> id in ids;
      OwnedSameTable(ids[..n], accounts, a);
      assert ids[n] in ids;
    }
  }

  /** The company's accounts by code do not change. */
  lemma OwnedOfOneMore(accounts: seq<Account>, a: Account)
    requires a.owner != ThisCompany
    ensures Ledger.Owned(ByCode(accounts + [a]), accounts + [a]) == Ledger.Owned(ByCode(accounts), accounts)
  {
    OneMoreByCode(accounts, a);
    OwnedWithout(ByCode(accounts + [a]), accounts + [a], |accounts|);
    ByCodeOnce(accounts);
    OwnedSameTable(ByCode(accounts), accounts, a);
  }

  lemma {:induction false} NodesForOwned(ids: seq<AccountId>, accounts: seq<Account>, lines: seq<Line>)
    ensures NodesFor(ids, accounts, lines) == NodesFor(Ledger.Owned(ids, accounts), accounts, lines)
  {
    if ids != [] {
      var n := |ids| - 1;
      NodesForOwned(ids[..n], accounts, lines);
      var before := Ledger.Owned(ids[..n], accounts);
      if ids[n] < |accounts| && accounts[ids[n]].owner == ThisCompany {
        assert (before + [ids[n]])[..|before|] == before;
      } else {
        assert before + [] == before;
      }
    }
  }

  lemma {:induction false} NodesForSameTable(ids: seq<AccountId>, accounts: seq<Account>, a: Account, lines: seq<Line>)
    requires forall id :: id in ids ==> id < |accounts|
    ensures NodesFor(ids, accounts + [a], lines) == NodesFor(ids, accounts, lines)
  {
    if ids != [] {
      var n := |ids| - 1;
      assert forall id :: id in ids[..n] ==> id in ids;
      NodesForSameTable(ids[..n], accounts, a, lines);
      assert ids[n] in ids;
    }
  }

  /** The books with one row more in the table. */
  function OneMoreRow(b: Books, a: Account): Books { b.(accounts := b.accounts + [a]) }

  lemma RowsOfOneMore(b: Books, a: Account, c: Context)
    requires a.owner != ThisCompany
    ensures RowsOf(OneMoreRow(b, a), c) == RowsOf(b, c)
  {
    var after := b.accounts + [a];
    var lines := LinesIn(b.entries, Computed(c));
    var owned := Ledger.Owned(ByCode(b.accounts), b.accounts);
    NodesForOwned(ByCode(after), after, lines);
    NodesForOwned(ByCode(b.accounts), b.accounts, lines);
    OwnedOfOneMore(b.accounts, a);
    Ledger.OwnedOnly(ByCode(b.accounts), b.accounts);
    NodesForSameTable(owned, b.accounts, a, lines);
  }

  lemma CardsOfOneMore(b: Books, a: Account, c: Context, ids: seq<AccountId>)
    requires forall id :: id in ids ==> id < |b.accounts|
    ensures Ledger.CardsOf(OneMoreRow(b, a), c, ids) == Ledger.CardsOf(b, c, ids)
  {
    forall i | 0 <= i < |ids|
      ensures ids[i] < |b.accounts| && Ledger.CardOf(OneMoreRow(b, a), c, ids[i]) == Ledger.CardOf(b, c, ids[i])
    {
      assert ids[i] in ids;
    }
  }

  lemma LedgerOfOneMore(b: Books, a: Account, c: Context, account: Option<AccountId>)
    requires a.owner != ThisCompany
    ensures Ledger.LedgerOf(OneMoreRow(b, a), c, account) == Ledger.LedgerOf(b, c, account)
  {
    OwnedOfOneMore(b.accounts, a);
    Ledger.ListedInTable(b, account);
    if Ledger.Listed(b, account).Some? {
      CardsOfOneMore(b, a, c, Ledger.Listed(b, account).value);
    }
  }
}
