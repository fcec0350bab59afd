/** What an opening books, item by item of its payload. */
module OpeningEffects {
  import opened Basics
  import opened Model
  import opened Turnovers
  import opened Journal
  import opened AccountResolution
  import opened Exercises
  import opened OpeningEntry
  import opened ClosingTheorems
  import opened Runs
  import opened Names
  import DemoSoundness

  // Grouping, name by name.

  /** What the items of one colectiva and one name, white space at its ends aside, add up to. */
  ghost function AmountOf(items: seq<Item>, parent: Code, name: string): int {
    if items == [] then 0
    else
      var x := items[|items| - 1];
      AmountOf(items[..|items| - 1], parent, name)
      + if x.parent == parent && Trims(x.name, name) then x.amount else 0
  }

  lemma {:induction false} AmountIsTotal(items: seq<Item>, parent: Code, name: string)
    ensures AmountOf(items, parent, name) == TotalFor(items, (parent, name))
  {
    if items != [] {
      AmountIsTotal(items[..|items| - 1], parent, name);
      StripIff(items[|items| - 1].name, name);
    }
  }

  /** Grouping gives exactly one item for each colectiva and trimmed name that occurs, with the sum of its items. */
  lemma GroupedByName(items: seq<Item>)
    ensures forall g :: g in Group(items) ==>
              g.amount == AmountOf(items, g.parent, g.name) && exists x :: x in items && x.parent == g.parent && Trims(x.name, g.name)
    ensures forall x :: x in items ==> exists g :: g in Group(items) && g.parent == x.parent && Trims(x.name, g.name)
    ensures forall i, j :: 0 <= i < j < |Group(items)| ==>
              Group(items)[i].parent != Group(items)[j].parent || Group(items)[i].name != Group(items)[j].name
  {
    KeysCover(items);
    var keys, grouped := Keys(items), Group(items);
    forall g | g in grouped
      ensures g.amount == AmountOf(items, g.parent, g.name)
      ensures exists x :: x in items && x.parent == g.parent && Trims(x.name, g.name)
    {
      var i :| 0 <= i < |keys| && grouped[i] == g;
      AmountIsTotal(items, g.parent, g.name);
      assert keys[i] in keys;
      var x :| x in items && GroupKey(x) == keys[i];
      StripIff(x.name, g.name);
    }
    forall x | x in items ensures exists g :: g in grouped && g.parent == x.parent && Trims(x.name, g.name) {
      assert GroupKey(x) in keys;
      var i :| 0 <= i < |keys| && keys[i] == GroupKey(x);
      assert grouped[i] in grouped;
      StripTrims(x.name);
    }
    forall i, j | 0 <= i < j < |grouped| ensures grouped[i].parent != grouped[j].parent || grouped[i].name != grouped[j].name {
      assert keys[i] != keys[j];
    }
  }

  // The sides of the opening entry.

  function SpecOf(x: Item): Spec { Spec(x.parent, x.name) }

  /** The items whose account is selected. */
  function AmountOn(items: seq<Item>, ids: Index, sel: AccountId -> bool): int {
    if items == [] then 0
    else
      var x := items[|items| - 1];
      AmountOn(items[..|items| - 1], ids, sel) + if sel(AccountFor(ids, SpecOf(x))) then x.amount else 0
  }

  lemma AmountOnOneMore(items: seq<Item>, x: Item, ids: Index, sel: AccountId -> bool)
    ensures AmountOn(items + [x], ids, sel)
         == AmountOn(items, ids, sel) + if sel(AccountFor(ids, SpecOf(x))) then x.amount else 0
  {
    assert (items + [x])[..|items|] == items;
  }

  /** Whether the account of a grouping key is selected. */
  function KeyOn(ids: Index, sel: AccountId -> bool, key: (Code, string)): bool {
    sel(AccountFor(ids, Spec(key.0, key.1)))
  }

  lemma KeyOfItem(ids: Index, sel: AccountId -> bool, x: Item)
    ensures KeyOn(ids, sel, GroupKey(x)) == sel(AccountFor(ids, SpecOf(x)))
  {
    StripTwice(x.name);
  }

  /** What the item of the last key adds. */
  lemma LastKeyOn(keys: seq<(Code, string)>, items: seq<Item>, ids: Index, sel: AccountId -> bool)
    requires keys != []
    ensures var k := |keys| - 1;
            AmountOn(ItemsFor(keys, items), ids, sel)
            == AmountOn(ItemsFor(keys[..k], items), ids, sel)
               + if KeyOn(ids, sel, keys[k]) then TotalFor(items, keys[k]) else 0
  {
    var k := |keys| - 1;
    var last := Item(keys[k].0, keys[k].1, TotalFor(items, keys[k]));
    assert ItemsFor(keys, items) == ItemsFor(keys[..k], items) + [last];
    AmountOnOneMore(ItemsFor(keys[..k], items), last, ids, sel);
  }

  lemma {:induction false} OneMoreItemOn(keys: seq<(Code, string)>, items: seq<Item>, ids: Index, sel: AccountId -> bool)
    requires items != [] && forall i, j :: 0 <= i < j < |keys| ==> keys[i] != keys[j]
    ensures AmountOn(ItemsFor(keys, items), ids, sel)
         == AmountOn(ItemsFor(keys, items[..|items| - 1]), ids, sel)
            + var x := items[|items| - 1];
              if GroupKey(x) in keys && KeyOn(ids, sel, GroupKey(x)) then x.amount else 0
  {
    if keys != [] {
      var k := |keys| - 1;
      assert keys == keys[..k] + [keys[k]];
      OneMoreItemOn(keys[..k], items, ids, sel);
      LastKeyOn(keys, items, ids, sel);
      LastKeyOn(keys, items[..|items| - 1], ids, sel);
    }
  }

  /** Grouping conserves what is booked on any selection of accounts. */
  lemma {:induction false} GroupConservesOn(items: seq<Item>, ids: Index, sel: AccountId -> bool)
    ensures AmountOn(Group(items), ids, sel) == AmountOn(items, ids, sel)
  {
    if items != [] {
      var n := |items| - 1;
      var key := GroupKey(items[n]);
      var before := Keys(items[..n]);
      GroupConservesOn(items[..n], ids, sel);
      KeysCover(items[..n]);
      OneMoreItemOn(before, items, ids, sel);
      KeyOfItem(ids, sel, items[n]);
      if key !in before {
        NoTotal(items[..n], key);
        var last := Item(key.0, key.1, TotalFor(items, key));
        assert Group(items) == ItemsFor(before, items) + [last];
        AmountOnOneMore(ItemsFor(before, items), last, ids, sel);
      }
    }
  }

  lemma {:induction false} ItemLinesTurnover(ids: Index, items: seq<Item>, side: Side, sel: AccountId -> bool)
    ensures Turnover(ItemLines(ids, items, side), side, sel) == AmountOn(items, ids, sel)
    ensures Turnover(ItemLines(ids, items, side), Opposite(side), sel) == 0
  {
    if items != [] {
      var n := |items| - 1;
      var last := ItemLine(ids, items[n], side);
      ItemLinesTurnover(ids, items[..n], side, sel);
      assert ItemLines(ids, items, side) == ItemLines(ids, items[..n], side) + [last];
      TurnoverConcat(ItemLines(ids, items[..n], side), [last], side, sel);
      TurnoverConcat(ItemLines(ids, items[..n], side), [last], Opposite(side), sel);
      assert [last][1..] == [];
    }
  }

  /** The amounts of some items. */
  function AmountSum(items: seq<Item>): int {
    if items == [] then 0 else AmountSum(items[..|items| - 1]) + items[|items| - 1].amount
  }

  lemma {:induction false} AmountSumIs(items: seq<Item>)
    ensures AmountSum(items) == Total(items)
  {
    if items != [] {
      AmountSumIs(items[..|items| - 1]);
    }
  }

  /** What is left for the capital, if its account is selected. */
  function CapitalOn(p: Payload, ids: Index, sel: AccountId -> bool): int {
    if sel(AccountFor(ids, Spec(Code(3, 1), "Capital"))) then AmountSum(p.assets) - AmountSum(p.liabilities) else 0
  }

  lemma OpeningTurnover(ids: Index, p: Payload, sel: AccountId -> bool)
    ensures Turnover(OpeningLines(ids, p), Debit, sel) == AmountOn(p.assets, ids, sel)
    ensures Turnover(OpeningLines(ids, p), Credit, sel)
         == AmountOn(p.liabilities, ids, sel) + CapitalOn(p, ids, sel)
  {
    var assets, liabilities := Group(p.assets), Group(p.liabilities);
    var a, l := ItemLines(ids, assets, Debit), ItemLines(ids, liabilities, Credit);
    var capital := ItemLine(ids, Item(CAPITAL.parent, CAPITAL.name, Total(assets) - Total(liabilities)), Credit);
    ItemLinesTurnover(ids, assets, Debit, sel);
    ItemLinesTurnover(ids, liabilities, Credit, sel);
    GroupConservesOn(p.assets, ids, sel);
    GroupConservesOn(p.liabilities, ids, sel);
    GroupConserves(p.assets);
    GroupConserves(p.liabilities);
    AmountSumIs(p.assets);
    AmountSumIs(p.liabilities);
    assert capital.account == AccountFor(ids, Spec(Code(3, 1), "Capital"));
    ThreeParts(a, l, capital, Debit, sel);
    ThreeParts(a, l, capital, Credit, sel);
    assert OpeningLines(ids, p) == (a + l) + [capital];
    assert Opposite(Debit) == Credit && Opposite(Credit) == Debit;
  }

  lemma ThreeParts(a: seq<Line>, l: seq<Line>, capital: Line, side: Side, sel: AccountId -> bool)
    ensures Turnover((a + l) + [capital], side, sel)
         == Turnover(a, side, sel) + Turnover(l, side, sel)
            + if capital.side == side && sel(capital.account) then capital.amount else 0
  {
    TurnoverConcat(a + l, [capital], side, sel);
    TurnoverConcat(a, l, side, sel);
    assert [capital][1..] == [];
  }

  /** The index of an opening has the account of each of its items and of the capital. */
  lemma OpeningAccounts(b: Books, p: Payload, x: Item)
    requires Resolve(b, OpeningSpecs(p)).Ok? && (x in p.assets || x in p.liabilities)
    ensures var (after, ids) := Resolve(b, OpeningSpecs(p)).value;
            && IsAccountOf(after.accounts, AccountFor(ids, SpecOf(x)), SpecOf(x))
            && IsAccountOf(after.accounts, AccountFor(ids, Spec(Code(3, 1), "Capital")), Spec(Code(3, 1), "Capital"))
  {
    var items := if x in p.assets then p.assets else p.liabilities;
    var g := GroupSpec(items, x);
    assert g in OpeningSpecs(p) && CAPITAL in OpeningSpecs(p);
    ResolvedAccounts(b, OpeningSpecs(p), g, g);
    ResolvedAccounts(b, OpeningSpecs(p), CAPITAL, CAPITAL);
    var (after, ids) := Resolve(b, OpeningSpecs(p)).value;
    ServesIff(after.accounts, AccountFor(ids, g), g);
    ServesIff(after.accounts, AccountFor(ids, g), SpecOf(x));
  }

  /** The spec that stands for an item after grouping. */
  lemma GroupSpec(items: seq<Item>, x: Item) returns (g: Spec)
    requires x in items
    ensures g in SpecsOf(Group(items)) && KeyOfSpec(g) == KeyOfSpec(SpecOf(x))
  {
    KeysCover(items);
    assert GroupKey(x) in Keys(items);
    var i :| 0 <= i < |Keys(items)| && Keys(items)[i] == GroupKey(x);
    g := SpecsOf(Group(items))[i];
    StripTwice(x.name);
  }

  /** What an opening books. The entry, the first of the journal, debits the account of each asset of the payload by its
      amount; it credits the account of each liability, and the capital with the rest. Each of these accounts is a
      movement account of the company under the colectiva and by the name the payload gives. */
  lemma OpeningBooks(b: Books, p: Payload, sel: AccountId -> bool)
    requires Open(b, p).Ok?
    ensures Resolve(b, OpeningSpecs(p)).Ok?
    ensures var (ready, ids) := Resolve(b, OpeningSpecs(p)).value;
            var after := Open(b, p).value;
            && b.entries == [] && |after.entries| == 1 && after == ready.(entries := after.entries)
            && after.entries[0].number == 1 && after.entries[0].date == p.date && after.entries[0].source == Opening
            && Turnover(after.entries[0].lines, Debit, sel) == AmountOn(p.assets, ids, sel)
            && Turnover(after.entries[0].lines, Credit, sel)
               == AmountOn(p.liabilities, ids, sel) + CapitalOn(p, ids, sel)
            && forall x :: x in p.assets || x in p.liabilities ==>
                 IsAccountOf(after.accounts, AccountFor(ids, SpecOf(x)), SpecOf(x))
  {
    var (ready, ids) := Resolve(b, OpeningSpecs(p)).value;
    OpeningTurnover(ids, p, sel);
    forall x | x in p.assets || x in p.liabilities
      ensures IsAccountOf(ready.accounts, AccountFor(ids, SpecOf(x)), SpecOf(x))
    {
      OpeningAccounts(b, p, x);
    }
    OpenAppends(b, p, ready, ids);
  }

  lemma OpenAppends(b: Books, p: Payload, ready: Books, ids: Index)
    requires Open(b, p).Ok? && Resolve(b, OpeningSpecs(p)) == Ok((ready, ids))
    ensures b.entries == []
    ensures Open(b, p).value == ready.(entries := [Entry(1, p.date, Opening, OpeningLines(ids, p), None)])
  {
    assert ready.entries == b.entries == [];
    assert OpenResolved(ready, p, ids) == Open(b, p);
    hide Resolve, Open, OpeningLines, OpeningSpecs;
    FirstEntry(ready, p, ids);
  }

  lemma FirstEntry(ready: Books, p: Payload, ids: Index)
    requires OpenResolved(ready, p, ids).Ok? && ready.entries == []
    ensures OpenResolved(ready, p, ids).value
         == ready.(entries := [Entry(1, p.date, Opening, OpeningLines(ids, p), None)])
  {
    hide OpeningLines, LinesVerdict;
    assert Append(ready, p.date, Opening, OpeningLines(ids, p), None).entries
        == [Entry(1, p.date, Opening, OpeningLines(ids, p), None)];
  }

  // Colectiva by colectiva.

  /** The items of a colectiva. */
  function AmountUnder(items: seq<Item>, parent: Code): int {
    if items == [] then 0
    else
      var x := items[|items| - 1];
      AmountUnder(items[..|items| - 1], parent) + if x.parent == parent then x.amount else 0
  }

  lemma {:induction false} AmountOnColectiva(items: seq<Item>, ids: Index, accounts: seq<Account>, parent: Code)
    requires forall x :: x in items ==> IsAccountOf(accounts, AccountFor(ids, SpecOf(x)), SpecOf(x))
    ensures AmountOn(items, ids, InColectiva(accounts, parent)) == AmountUnder(items, parent)
  {
    if items != [] {
      var n := |items| - 1;
      assert items == items[..n] + [items[n]];
      AmountOnColectiva(items[..n], ids, accounts, parent);
      assert items[n] in items;
    }
  }

  lemma CapitalAccount(b: Books, p: Payload)
    requires Resolve(b, OpeningSpecs(p)).Ok?
    ensures var (after, ids) := Resolve(b, OpeningSpecs(p)).value;
            IsAccountOf(after.accounts, AccountFor(ids, Spec(Code(3, 1), "Capital")), Spec(Code(3, 1), "Capital"))
  {
    assert CAPITAL in OpeningSpecs(p);
    ResolvedAccounts(b, OpeningSpecs(p), CAPITAL, CAPITAL);
  }

  /** On each colectiva an opening debits the assets the payload has there, and credits its liabilities there; on 3.01 it
      credits the rest as well. */
  lemma OpeningByColectiva(b: Books, p: Payload, parent: Code)
    requires Open(b, p).Ok?
    ensures var after := Open(b, p).value;
            && |after.entries| == 1
            && Turnover(after.entries[0].lines, Debit, InColectiva(after.accounts, parent)) == AmountUnder(p.assets, parent)
            && Turnover(after.entries[0].lines, Credit, InColectiva(after.accounts, parent))
               == AmountUnder(p.liabilities, parent)
                  + (if parent == Code(3, 1) then AmountSum(p.assets) - AmountSum(p.liabilities) else 0)
  {
    var (ready, ids) := Resolve(b, OpeningSpecs(p)).value;
    var sel := InColectiva(ready.accounts, parent);
    OpeningBooks(b, p, sel);
    CapitalAccount(b, p);
    AmountOnColectiva(p.assets, ids, ready.accounts, parent);
    AmountOnColectiva(p.liabilities, ids, ready.accounts, parent);
  }

  function NewCompany(): Books { Books([], {Code(1, 1), Code(3, 1)}, [], None, []) }

  function ThousandInTheTill(date: Date): Payload { Payload(date, "INITIAL", [Item(Code(1, 1), "Caja", 1000)], []) }

  lemma NewAccounts()
    ensures ResolveEach([], [Spec(Code(1, 1), "Caja"), Spec(Code(3, 1), "Capital")]).Ok?
  {
    var s, t := Spec(Code(1, 1), "Caja"), Spec(Code(3, 1), "Capital");
    assert [s, t][..1] == [s] && [s][..0] == [];
    assert !Taken([], s.parent, 1);
    var first := [NewAccount(s.parent, LeastFree([], s.parent, 1).value, s.name)];
    assert [] + first == first;
    assert OwnedNames([]) == map[] && AllNames([]) == map[];
    assert ResolveOne([], s) == Ok((first, 0));
    assert ResolveEach([], [s]).Ok? && ResolveEach([], [s]).value.0 == first;
    OwnedNamesSound(first, KeyOfSpec(t));
    AllNamesSound(first, KeyOfSpec(t));
    assert ResolveOne(first, t).Ok?;
  }

  lemma OneItem(x: Item)
    requires Strip(x.name) == x.name
    ensures Group([x]) == [x]
  {
    assert [x][..0] == [];
    assert Keys([x]) == [GroupKey(x)];
    assert TotalFor([x], GroupKey(x)) == x.amount;
  }

  lemma OneSpec(x: Item)
    ensures SpecsOf([x]) == [SpecOf(x)] && SpecsOf([]) == []
  {
  }

  lemma NewSpecs(date: Date)
    ensures OpeningSpecs(ThousandInTheTill(date)) == [Spec(Code(1, 1), "Caja"), Spec(Code(3, 1), "Capital")]
  {
    var x := Item(Code(1, 1), "Caja", 1000);
    OneItem(x);
    OneSpec(x);
    hide Group, SpecsOf;
    assert Group([]) == [] by { NoItems(); }
  }

  lemma NoItems()
    ensures Group([]) == []
  {
  }

  lemma NewCompanyResolves(date: Date)
    ensures Resolve(NewCompany(), OpeningSpecs(ThousandInTheTill(date))).Ok?
  {
    NewAccounts();
    NewSpecs(date);
    hide OpeningSpecs, ResolveEach;
  }

  lemma NewCompanyPosts(date: Date)
    ensures Open(NewCompany(), ThousandInTheTill(date)).Ok?
  {
    var b, p := NewCompany(), ThousandInTheTill(date);
    NewCompanyResolves(date);
    TillAmounts(date);
    CapitalIs(p);
    hide OpeningSpecs, OpeningLines, CapitalOf, Resolve, Postable;
    ResolvesInto(b, OpeningSpecs(p));
    var (ready, ids) := Resolve(b, OpeningSpecs(p)).value;
    DemoSoundness.OpeningPostable(ready.accounts, ids, p);
    PostIff(ready, date, Opening, OpeningLines(ids, p));
  }

  lemma ResolvesInto(b: Books, specs: seq<Spec>)
    requires Resolve(b, specs).Ok?
    ensures var (ready, ids) := Resolve(b, specs).value;
            && ready == b.(accounts := ready.accounts)
            && (forall s :: s in specs ==> KeyOfSpec(s) in ids)
            && (forall key :: key in ids ==> Serves(ready.accounts, ids[key], key))
  {
    ResolveServes(b.accounts, specs);
  }

  lemma TillAmounts(date: Date)
    ensures var p := ThousandInTheTill(date);
            && AmountSum(p.assets) == 1000 && AmountSum(p.liabilities) == 0
            && (forall c :: AmountUnder(p.assets, c) == if c == Code(1, 1) then 1000 else 0)
            && forall c :: AmountUnder(p.liabilities, c) == 0
  {
    assert ThousandInTheTill(date).assets[..0] == [];
  }

  /** Instance: a company that opens with 1000 in the till has 1000 in debit on 1.01 and 1000 in credit on 3.01. */
  lemma NewCompanyOpens(date: Date)
    ensures Open(NewCompany(), ThousandInTheTill(date)).Ok?
    ensures var after := Open(NewCompany(), ThousandInTheTill(date)).value;
            && |after.entries| == 1
            && Turnover(after.entries[0].lines, Debit, InColectiva(after.accounts, Code(1, 1))) == 1000
            && Turnover(after.entries[0].lines, Credit, InColectiva(after.accounts, Code(1, 1))) == 0
            && Turnover(after.entries[0].lines, Debit, InColectiva(after.accounts, Code(3, 1))) == 0
            && Turnover(after.entries[0].lines, Credit, InColectiva(after.accounts, Code(3, 1))) == 1000
  {
    NewCompanyPosts(date);
    hide Open;
    TillAmounts(date);
    OpeningByColectiva(NewCompany(), ThousandInTheTill(date), Code(1, 1));
    OpeningByColectiva(NewCompany(), ThousandInTheTill(date), Code(3, 1));
  }

  lemma CapitalIs(p: Payload)
    ensures CapitalOf(p) == AmountSum(p.assets) - AmountSum(p.liabilities)
  {
    GroupConserves(p.assets);
    GroupConserves(p.liabilities);
    AmountSumIs(p.assets);
    AmountSumIs(p.liabilities);
  }

  // Which openings are accepted.

  /** What is given for each colectiva and name adds up to something positive. */
  ghost predicate PositiveByName(items: seq<Item>) {
    forall x, name :: x in items && Trims(x.name, name) ==> AmountOf(items, x.parent, name) > 0
  }

  lemma PositiveGroups(items: seq<Item>)
    ensures PositiveByName(items) <==> forall g :: g in Group(items) ==> g.amount > 0
  {
    if PositiveByName(items) {
      forall g | g in Group(items) ensures g.amount > 0 {
        PositiveGroup(items, g);
      }
    }
    if forall g :: g in Group(items) ==> g.amount > 0 {
      forall x, name | x in items && Trims(x.name, name) ensures AmountOf(items, x.parent, name) > 0 {
        var g := GroupOfItem(items, x, name);
      }
    }
  }

  lemma PositiveGroup(items: seq<Item>, g: Item)
    requires PositiveByName(items) && g in Group(items)
    ensures g.amount > 0
  {
    GroupedByName(items);
    hide Group, AmountOf, Trims;
    var x :| x in items && x.parent == g.parent && Trims(x.name, g.name);
    assert AmountOf(items, x.parent, g.name) > 0;
  }

  lemma GroupOfItem(items: seq<Item>, x: Item, name: string) returns (g: Item)
    requires x in items && Trims(x.name, name)
    ensures g in Group(items) && g.amount == AmountOf(items, x.parent, name)
  {
    GroupedByName(items);
    hide Group, AmountOf, Trims;
    g :| g in Group(items) && g.parent == x.parent && Trims(x.name, g.name);
    TrimsOnce(x.name, name, g.name);
  }

  lemma ItemLinesPositive(accounts: seq<Account>, ids: Index, items: seq<Item>, side: Side)
    requires forall s :: s in SpecsOf(items) ==> KeyOfSpec(s) in ids
    requires forall key :: key in ids ==> Serves(accounts, ids[key], key)
    ensures (forall l :: l in ItemLines(ids, items, side) ==> LineOk(accounts, l)) <==> forall x :: x in items ==> x.amount > 0
  {
    if forall l :: l in ItemLines(ids, items, side) ==> LineOk(accounts, l) {
      forall x | x in items ensures x.amount > 0 {
        var i :| 0 <= i < |items| && items[i] == x;
        assert ItemLines(ids, items, side)[i] in ItemLines(ids, items, side);
      }
    }
    if forall x :: x in items ==> x.amount > 0 {
      DemoSoundness.ItemLinesOk(accounts, ids, items, side);
    }
  }

  lemma InventoryParts(ids: Index, p: Payload)
    ensures var capital := ItemLine(ids, Item(Code(3, 1), "Capital", CapitalOf(p)), Credit);
            forall l :: l in OpeningLines(ids, p) <==>
              l in ItemLines(ids, Group(p.assets), Debit) || l in ItemLines(ids, Group(p.liabilities), Credit) || l == capital
  {
  }

  lemma LineSides(ids: Index, items: seq<Item>, side: Side)
    ensures forall l :: l in ItemLines(ids, items, side) ==> l.side == side
    ensures ItemLines(ids, items, side) != [] <==> items != []
  {
  }

  lemma GroupEmpty(items: seq<Item>)
    ensures Group(items) == [] <==> items == []
  {
    KeysCover(items);
    if items != [] {
      assert items[0] in items;
      assert GroupKey(items[0]) in Keys(items);
    }
  }

  lemma OpeningSides(ids: Index, p: Payload)
    ensures HasSide(OpeningLines(ids, p), Debit) <==> p.assets != []
    ensures HasSide(OpeningLines(ids, p), Credit)
  {
    var a, l := ItemLines(ids, Group(p.assets), Debit), ItemLines(ids, Group(p.liabilities), Credit);
    InventoryParts(ids, p);
    LineSides(ids, Group(p.assets), Debit);
    LineSides(ids, Group(p.liabilities), Credit);
    GroupEmpty(p.assets);
    var capital := ItemLine(ids, Item(Code(3, 1), "Capital", CapitalOf(p)), Credit);
    assert capital in OpeningLines(ids, p) && capital.side == Credit;
    if p.assets != [] {
      assert a[0] in OpeningLines(ids, p) && a[0].side == Debit;
    }
    hide OpeningLines, ItemLines, ItemLine, Group;
  }

  lemma CapitalLine(accounts: seq<Account>, ids: Index, p: Payload)
    requires KeyOfSpec(Spec(Code(3, 1), "Capital")) in ids
    requires forall key :: key in ids ==> Serves(accounts, ids[key], key)
    ensures LineOk(accounts, ItemLine(ids, Item(Code(3, 1), "Capital", CapitalOf(p)), Credit)) <==> CapitalOf(p) > 0
  {
  }

  lemma SpecsInParts(p: Payload)
    ensures forall s :: s in SpecsOf(Group(p.assets)) || s in SpecsOf(Group(p.liabilities)) ==> s in OpeningSpecs(p)
  {
  }

  /** The lines of an opening are a postable asiento exactly when there are assets and everything adds up to something
      positive: each name, and what is left for the capital. */
  lemma OpeningPostableIff(accounts: seq<Account>, ids: Index, p: Payload)
    requires forall s :: s in OpeningSpecs(p) ==> KeyOfSpec(s) in ids
    requires forall key :: key in ids ==> Serves(accounts, ids[key], key)
    ensures Postable(accounts, OpeningLines(ids, p)) <==>
              p.assets != [] && PositiveByName(p.assets) && PositiveByName(p.liabilities) && CapitalOf(p) > 0
  {
    assert CAPITAL in OpeningSpecs(p);
    CapitalLine(accounts, ids, p);
    InventoryParts(ids, p);
    PositiveGroups(p.assets);
    PositiveGroups(p.liabilities);
    ItemLinesPositive(accounts, ids, Group(p.assets), Debit);
    ItemLinesPositive(accounts, ids, Group(p.liabilities), Credit);
    OpeningBalances(ids, p);
    OpeningSides(ids, p);
    SpecsInParts(p);
    hide OpeningLines, ItemLines, ItemLine, Group, PositiveByName, HasSide, Net, CapitalOf, LineOk, OpeningSpecs, SpecsOf;
  }

  lemma OpenResolvedIff(b: Books, p: Payload)
    requires b.entries == [] && Resolve(b, OpeningSpecs(p)).Ok? && KnownKind(p.kind)
    ensures var (ready, ids) := Resolve(b, OpeningSpecs(p)).value;
            OpenResolved(ready, p, ids).Ok? <==>
              && !Closed(b.closedUntil, p.date) && p.assets != [] && PositiveByName(p.assets) && PositiveByName(p.liabilities)
              && CapitalOf(p) > 0
  {
    var (ready, ids) := Resolve(b, OpeningSpecs(p)).value;
    ResolveServes(b.accounts, OpeningSpecs(p));
    assert ready == b.(accounts := ready.accounts);
    OpeningPostableIff(ready.accounts, ids, p);
    PostIff(ready, p.date, Opening, OpeningLines(ids, p));
    hide Resolve, OpeningLines, Postable, Post, PositiveByName, CapitalOf;
  }

  /** A company opens exactly when it has no entries yet, the books are not locked on the date, there are assets, the items
      of each name add up to something positive, the assets to more than the liabilities, the kind of inventory is known
      and the accounts can be resolved. */
  lemma OpenIff(b: Books, p: Payload)
    ensures Open(b, p).Ok? <==>
              && b.entries == [] && !Closed(b.closedUntil, p.date)
              && p.assets != [] && PositiveByName(p.assets) && PositiveByName(p.liabilities)
              && AmountSum(p.assets) > AmountSum(p.liabilities)
              && (p.kind == "INITIAL" || p.kind == "GENERAL") && Resolve(b, OpeningSpecs(p)).Ok?
  {
    CapitalIs(p);
    if b.entries == [] && CapitalOf(p) > 0 && Resolve(b, OpeningSpecs(p)).Ok? && KnownKind(p.kind) {
      OpenResolvedIff(b, p);
    }
  }

  /** Why a company with sound books does not open, the first reason that applies. */
  lemma OpenErrors(b: Books, p: Payload)
    requires Inv(b)
    ensures var r := Open(b, p);
            if b.entries != [] then r == Err(AlreadyOpened)
            else if AmountSum(p.assets) <= AmountSum(p.liabilities) then r == Err(CapitalNotPositive)
            else match Resolve(b, OpeningSpecs(p))
                 case Err(error) => r == Err(error)
                 case Ok(_) =>
                   if p.kind != "INITIAL" && p.kind != "GENERAL" then r == Err(UnknownInventoryKind)
                   else Closed(b.closedUntil, p.date) ==> r == Err(PeriodClosed)
  {
    CapitalIs(p);
    OpenedIff(b.entries);
  }
}
