/** Opening a company: the inventory entry that starts its accounting. */
module OpeningEntry {
  import opened Basics
  import opened Model
  import opened Turnovers
  import opened Journal
  import opened AccountResolution

  datatype Item = Item(parent: Code, name: string, amount: int)

  datatype Payload = Payload(date: Date, kind: string, assets: seq<Item>, liabilities: seq<Item>)

  const CAPITAL := Spec(Code(3, 1), "Capital")

  /** What items are grouped by: the stripped name, with its case. */
  function GroupKey(x: Item): (Code, string) { (x.parent, Strip(x.name)) }

  function Total(items: seq<Item>): int {
    if items == [] then 0 else Total(items[..|items| - 1]) + items[|items| - 1].amount
  }

  function TotalFor(items: seq<Item>, key: (Code, string)): int {
    if items == [] then 0
    else
      var n := |items| - 1;
      TotalFor(items[..n], key) + if GroupKey(items[n]) == key then items[n].amount else 0
  }

  /** The distinct keys in the order they first occur. */
  function Keys(items: seq<Item>): seq<(Code, string)> {
    if items == [] then []
    else
      var n := |items| - 1;
      var before := Keys(items[..n]);
      if GroupKey(items[n]) in before then before else before + [GroupKey(items[n])]
  }

  function ItemsFor(keys: seq<(Code, string)>, items: seq<Item>): seq<Item> {
    seq(|keys|, i requires 0 <= i < |keys| => Item(keys[i].0, keys[i].1, TotalFor(items, keys[i])))
  }

  /** `_build_opening_specs`: one item per key, with the total of its items. */
  function Group(items: seq<Item>): seq<Item> { ItemsFor(Keys(items), items) }

  lemma {:induction false} KeysCover(items: seq<Item>)
    ensures forall key :: key in Keys(items) <==> exists x :: x in items && GroupKey(x) == key
    ensures forall i, j :: 0 <= i < j < |Keys(items)| ==> Keys(items)[i] != Keys(items)[j]
  {
    if items != [] {
      var n := |items| - 1;
      assert items == items[..n] + [items[n]];
      KeysCover(items[..n]);
    }
  }

  /** The loop over a dictionary that `_build_opening_specs` runs. */
  method BuildOpeningSpecs(items: seq<Item>) returns (specs: seq<Item>)
    ensures specs == Group(items)
  {
    var order: seq<(Code, string)> := [];
    var grouped: map<(Code, string), int> := map[];
    for i := 0 to |items|
      invariant order == Keys(items[..i])
      invariant forall key :: key in grouped <==> key in order
      invariant forall key :: key in grouped ==> grouped[key] == TotalFor(items[..i], key)
    {
      assert items[..i + 1][..i] == items[..i];
      var key := (items[i].parent, Strip(items[i].name));
      if key !in grouped {
        KeysCover(items[..i]);
        NoTotal(items[..i], key);
        order := order + [key];
        grouped := grouped[key := 0];
      }
      grouped := grouped[key := grouped[key] + items[i].amount];
    }
    assert items[..|items|] == items;
    specs := seq(|order|, i requires 0 <= i < |order| && forall k :: 0 <= k < |order| ==> order[k] in grouped
                          => Item(order[i].0, order[i].1, grouped[order[i]]));
    assert specs == Group(items);
  }

  lemma {:induction false} NoTotal(items: seq<Item>, key: (Code, string))
    requires forall x :: x in items ==> GroupKey(x) != key
    ensures TotalFor(items, key) == 0
  {
    if items != [] {
      var n := |items| - 1;
      assert items == items[..n] + [items[n]];
      NoTotal(items[..n], key);
    }
  }

  /** Grouping conserves the total. */
  lemma {:induction false} GroupConserves(items: seq<Item>)
    ensures Total(Group(items)) == Total(items)
  {
    if items != [] {
      var n := |items| - 1;
      var key := GroupKey(items[n]);
      var before := Keys(items[..n]);
      GroupConserves(items[..n]);
      KeysCover(items[..n]);
      OneMoreItem(before, items);
      if key !in before {
        NoTotal(items[..n], key);
        var last := Item(key.0, key.1, TotalFor(items, key));
        assert Group(items) == ItemsFor(before, items) + [last];
        TotalOfOneMore(ItemsFor(before, items), last);
      }
    }
  }

  lemma TotalOfOneMore(items: seq<Item>, x: Item)
    ensures Total(items + [x]) == Total(items) + x.amount
  {
    assert (items + [x])[..|items|] == items;
  }

  lemma {:induction false} OneMoreItem(keys: seq<(Code, string)>, items: seq<Item>)
    requires items != [] && forall i, j :: 0 <= i < j < |keys| ==> keys[i] != keys[j]
    ensures Total(ItemsFor(keys, items))
         == Total(ItemsFor(keys, items[..|items| - 1]))
            + if GroupKey(items[|items| - 1]) in keys then items[|items| - 1].amount else 0
  {
    if keys != [] {
      var k := |keys| - 1;
      assert keys == keys[..k] + [keys[k]];
      OneMoreItem(keys[..k], items);
      assert ItemsFor(keys, items)[..k] == ItemsFor(keys[..k], items);
      assert ItemsFor(keys, items[..|items| - 1])[..k] == ItemsFor(keys[..k], items[..|items| - 1]);
    }
  }

  /** Grouping positive amounts gives positive amounts, and something for something. */
  lemma GroupPositive(items: seq<Item>)
    requires forall x :: x in items ==> x.amount > 0
    ensures forall x :: x in Group(items) ==> x.amount > 0
    ensures items != [] ==> Group(items) != []
    ensures forall x :: x in Group(items) ==> exists y :: y in items && x.parent == y.parent
  {
    KeysCover(items);
    forall x | x in Group(items) ensures x.amount > 0 && exists y :: y in items && x.parent == y.parent {
      var i :| 0 <= i < |Keys(items)| && Group(items)[i] == x;
      assert Keys(items)[i] in Keys(items);
      var y :| y in items && GroupKey(y) == Keys(items)[i];
      PositiveTotal(items, Keys(items)[i]);
    }
    if items != [] {
      assert items[0] in items;
      assert GroupKey(items[0]) in Keys(items);
    }
  }

  lemma {:induction false} PositiveTotal(items: seq<Item>, key: (Code, string))
    requires forall x :: x in items ==> x.amount > 0
    ensures TotalFor(items, key) >= 0
    ensures TotalFor(items, key) > 0 <==> exists x :: x in items && GroupKey(x) == key
  {
    if items != [] {
      var n := |items| - 1;
      assert items == items[..n] + [items[n]];
      PositiveTotal(items[..n], key);
    }
  }

  // The entry.

  function SpecsOf(items: seq<Item>): seq<Spec> {
    seq(|items|, i requires 0 <= i < |items| => Spec(items[i].parent, items[i].name))
  }

  /** A line for an item; the resolution has an account for every spec it was given. */
  function ItemLine(ids: Index, x: Item, side: Side): Line {
    var key := KeyOfSpec(Spec(x.parent, x.name));
    Line(if key in ids then ids[key] else 0, side, x.amount)
  }

  function ItemLines(ids: Index, items: seq<Item>, side: Side): seq<Line> {
    seq(|items|, i requires 0 <= i < |items| => ItemLine(ids, items[i], side))
  }

  function CapitalOf(payload: Payload): int { Total(Group(payload.assets)) - Total(Group(payload.liabilities)) }

  /** Assets against liabilities and, for the rest, capital. */
  function InventoryLines(ids: Index, assets: seq<Item>, liabilities: seq<Item>): seq<Line> {
    ItemLines(ids, assets, Debit) + ItemLines(ids, liabilities, Credit)
    + [ItemLine(ids, Item(CAPITAL.parent, CAPITAL.name, Total(assets) - Total(liabilities)), Credit)]
  }

  function OpeningLines(ids: Index, payload: Payload): seq<Line> {
    InventoryLines(ids, Group(payload.assets), Group(payload.liabilities))
  }

  function OpeningSpecs(payload: Payload): seq<Spec> {
    SpecsOf(Group(payload.assets)) + SpecsOf(Group(payload.liabilities)) + [CAPITAL]
  }

  predicate KnownKind(kind: string) { kind == "INITIAL" || kind == "GENERAL" }

  /** `_create_opening_entry`. */
  function Open(b: Books, payload: Payload): Result<Books> {
    if HasOpening(b.entries) then Err(AlreadyOpened)
    else if b.entries != [] then Err(OpeningNotFirst)
    else if CapitalOf(payload) <= 0 then Err(CapitalNotPositive)
    else
      var resolved :- Resolve(b, OpeningSpecs(payload));
      OpenResolved(resolved.0, payload, resolved.1)
  }

  function OpenResolved(b: Books, payload: Payload, ids: Index): Result<Books> {
    if !KnownKind(payload.kind) then Err(UnknownInventoryKind)
    else Post(b, payload.date, Opening, OpeningLines(ids, payload))
  }

  method PostOpening(company: Company, payload: Payload, ids: Index, assets: seq<Item>, liabilities: seq<Item>)
      returns (failure: Option<Error>)
    requires assets == Group(payload.assets) && liabilities == Group(payload.liabilities)
    modifies company
    ensures Outcome(old(company.State()), OpenResolved(old(company.State()), payload, ids), company.State(), failure)
  {
    if !KnownKind(payload.kind) {
      return Some(UnknownInventoryKind);
    }
    failure := CreateJournalEntry(company, payload.date, Opening, InventoryLines(ids, assets, liabilities));
  }

  method CreateOpeningEntry(company: Company, payload: Payload) returns (failure: Option<Error>)
    modifies company
    ensures Outcome(old(company.State()), Open(old(company.State()), payload), company.State(), failure)
  {
    if HasOpening(company.entries) {
      return Some(AlreadyOpened);
    }
    if company.entries != [] {
      return Some(OpeningNotFirst);
    }
    var start := company.State();
    var assets := BuildOpeningSpecs(payload.assets);
    var liabilities := BuildOpeningSpecs(payload.liabilities);
    var capital := Total(assets) - Total(liabilities);
    if capital <= 0 {
      return Some(CapitalNotPositive);
    }
    var unresolved, ids := ResolveCompanyMovementAccounts(company, SpecsOf(assets) + SpecsOf(liabilities) + [CAPITAL]);
    if unresolved.Some? {
      return unresolved;
    }
    failure := PostOpening(company, payload, ids, assets, liabilities);
    if failure.Some? {
      company.Restore(start);
    }
  }

  lemma {:induction false} ItemTurnover(ids: Index, items: seq<Item>, side: Side)
    ensures Turnover(ItemLines(ids, items, side), side, Everything()) == Total(items)
    ensures Turnover(ItemLines(ids, items, side), Opposite(side), Everything()) == 0
  {
    if items != [] {
      var n := |items| - 1;
      var last := ItemLine(ids, items[n], side);
      ItemTurnover(ids, items[..n], side);
      assert ItemLines(ids, items, side) == ItemLines(ids, items[..n], side) + [last];
      TurnoverConcat(ItemLines(ids, items[..n], side), [last], side, Everything());
      TurnoverConcat(ItemLines(ids, items[..n], side), [last], Opposite(side), Everything());
      assert [last][1..] == [];
    }
  }

  /** Assets, liabilities and capital always balance. */
  lemma OpeningBalances(ids: Index, payload: Payload)
    ensures Net(OpeningLines(ids, payload), Everything()) == 0
  {
    var a, l := ItemLines(ids, Group(payload.assets), Debit), ItemLines(ids, Group(payload.liabilities), Credit);
    var c := ItemLine(ids, Item(CAPITAL.parent, CAPITAL.name, CapitalOf(payload)), Credit);
    ItemTurnover(ids, Group(payload.assets), Debit);
    ItemTurnover(ids, Group(payload.liabilities), Credit);
    NetConcat(a + l, [c], Everything());
    NetConcat(a, l, Everything());
    OneLineNet(c, Everything());
    assert Net(a, Everything()) == Total(Group(payload.assets));
    assert Net(l, Everything()) == -Total(Group(payload.liabilities));
  }
}
