/** Finding, linking and creating a company's movement accounts. */
module AccountResolution {
  import opened Basics
  import opened Model

  // Names are compared stripped and in lower case.

  /** ASCII white space, as `strip` takes it. */
  predicate Blank(c: char) { '\t' <= c <= '\r' || '\U{1C}' <= c <= '\U{1F}' || c == ' ' }

  function Strip(s: string): string {
    if s == [] then s
    else if Blank(s[0]) then Strip(s[1..])
    else if Blank(s[|s| - 1]) then Strip(s[..|s| - 1])
    else s
  }

  function Lower(s: string): string {
    seq(|s|, i requires 0 <= i < |s| => if 'A' <= s[i] <= 'Z' then s[i] - 'A' + 'a' else s[i])
  }

  function Norm(name: string): string { Lower(Strip(name)) }

  datatype Spec = Spec(parent: Code, name: string)

  /** `account_resolution_key`: what two specs of the same account share. */
  datatype NameKey = NameKey(parent: Code, name: string)

  function KeyOfSpec(spec: Spec): NameKey { NameKey(spec.parent, Norm(spec.name)) }
  function KeyOfAccount(a: Account): NameKey { NameKey(a.parent, Norm(a.name)) }

  type Index = map<NameKey, AccountId>

  /** The company's accounts by colectiva and name; of two with the same key the later one counts. */
  function OwnedNames(accounts: seq<Account>): Index {
    if accounts == [] then map[]
    else
      var n := |accounts| - 1;
      var rest := OwnedNames(accounts[..n]);
      if accounts[n].owner == ThisCompany then rest[KeyOfAccount(accounts[n]) := n] else rest
  }

  /** The accounts of every company by colectiva and name. */
  function AllNames(accounts: seq<Account>): Index {
    if accounts == [] then map[]
    else
      var n := |accounts| - 1;
      AllNames(accounts[..n])[KeyOfAccount(accounts[n]) := n]
  }

  lemma {:induction false} OwnedNamesSound(accounts: seq<Account>, key: NameKey)
    ensures key in OwnedNames(accounts) ==>
              OwnedNames(accounts)[key] < |accounts| && accounts[OwnedNames(accounts)[key]].owner == ThisCompany
              && KeyOfAccount(accounts[OwnedNames(accounts)[key]]) == key
    ensures key !in OwnedNames(accounts) ==>
              forall a :: a in accounts && a.owner == ThisCompany ==> KeyOfAccount(a) != key
  {
    if accounts != [] {
      var n := |accounts| - 1;
      OwnedNamesSound(accounts[..n], key);
      assert accounts == accounts[..n] + [accounts[n]];
    }
  }

  lemma {:induction false} AllNamesSound(accounts: seq<Account>, key: NameKey)
    ensures key in AllNames(accounts) ==>
              AllNames(accounts)[key] < |accounts| && KeyOfAccount(accounts[AllNames(accounts)[key]]) == key
    ensures key !in AllNames(accounts) ==> forall a :: a in accounts ==> KeyOfAccount(a) != key
  {
    if accounts != [] {
      var n := |accounts| - 1;
      AllNamesSound(accounts[..n], key);
      assert accounts == accounts[..n] + [accounts[n]];
    }
  }

  // Codes of new accounts.

  predicate Taken(accounts: seq<Account>, parent: Code, suffix: nat) {
    exists a :: a in accounts && a.parent == parent && a.suffix == suffix
  }

  predicate Free(accounts: seq<Account>, parent: Code, suffix: nat) {
    1 <= suffix <= 99 && !Taken(accounts, parent, suffix)
  }

  /** The least free suffix at or above `from`. */
  function LeastFree(accounts: seq<Account>, parent: Code, from: nat): (r: Option<nat>)
    requires 1 <= from <= 100
    ensures r.Some? ==> from <= r.value && Free(accounts, parent, r.value)
                        && forall k :: from <= k < r.value ==> Taken(accounts, parent, k)
    ensures r.None? <==> forall k :: from <= k <= 99 ==> Taken(accounts, parent, k)
    decreases 100 - from
  {
    if from == 100 then None
    else if Taken(accounts, parent, from) then LeastFree(accounts, parent, from + 1)
    else Some(from)
  }

  /** `_next_child_full_code`. */
  method NextChildSuffix(accounts: seq<Account>, parent: Code) returns (suffix: Option<nat>)
    ensures suffix == LeastFree(accounts, parent, 1)
  {
    var suffixes: set<nat> := {};
    for i := 0 to |accounts|
      invariant forall k :: k in suffixes <==> Taken(accounts[..i], parent, k)
    {
      assert accounts[..i + 1] == accounts[..i] + [accounts[i]];
      if accounts[i].parent == parent {
        suffixes := suffixes + {accounts[i].suffix};
      }
    }
    assert accounts[..|accounts|] == accounts;
    for candidate := 1 to 100
      invariant forall k :: 1 <= k < candidate ==> Taken(accounts, parent, k)
      invariant LeastFree(accounts, parent, 1) == LeastFree(accounts, parent, candidate)
    {
      if candidate !in suffixes {
        return Some(candidate);
      }
    }
    return None;
  }

  function NewAccount(parent: Code, suffix: nat, name: string): Account {
    Account(parent, suffix, name, 2, true, ThisCompany)
  }

  /** One turn of the resolution loop: the table it leaves and the account it settles on. */
  function ResolveOne(accounts: seq<Account>, spec: Spec): Result<(seq<Account>, AccountId)> {
    var key := KeyOfSpec(spec);
    OwnedNamesSound(accounts, key);
    AllNamesSound(accounts, key);
    if key in OwnedNames(accounts) then
      var id := OwnedNames(accounts)[key];
      if accounts[id].Movement() then Ok((accounts, id)) else Err(NotMovement)
    else if key in AllNames(accounts) && accounts[AllNames(accounts)[key]].owner == Unlinked then
      var id := AllNames(accounts)[key];
      if accounts[id].Movement() then Ok((accounts[id := accounts[id].(owner := ThisCompany)], id)) else Err(NotMovement)
    else
      match LeastFree(accounts, spec.parent, 1)
      case None => Err(CodesExhausted)
      case Some(suffix) => Ok((accounts + [NewAccount(spec.parent, suffix, spec.name)], |accounts|))
  }

  function ResolveEach(accounts: seq<Account>, specs: seq<Spec>): Result<(seq<Account>, Index)> {
    if specs == [] then Ok((accounts, map[]))
    else
      var n := |specs| - 1;
      var before :- ResolveEach(accounts, specs[..n]);
      var last :- ResolveOne(before.0, specs[n]);
      Ok((last.0, before.1[KeyOfSpec(specs[n]) := last.1]))
  }

  /** `resolve_company_movement_accounts`. */
  function Resolve(b: Books, specs: seq<Spec>): Result<(Books, Index)> {
    if exists s :: s in specs && s.parent !in b.chart then Err(UnknownParent)
    else
      var r :- ResolveEach(b.accounts, specs);
      Ok((b.(accounts := r.0), r.1))
  }

  /** The chart has five rubros. */
  predicate InRubro(c: Code) { 1 <= c.root <= 5 }

  /** The account table's constraints: codes are unique, and only movement accounts of the chart are linked. */
  ghost predicate TableOk(accounts: seq<Account>) {
    && (forall i, j :: 0 <= i < j < |accounts| ==>
          accounts[i].parent != accounts[j].parent || accounts[i].suffix != accounts[j].suffix)
    && (forall i :: 0 <= i < |accounts| && accounts[i].owner == ThisCompany ==>
          accounts[i].Movement() && InRubro(accounts[i].parent))
  }

  /** The table only grows: rows stay as they are, but for those nobody owned, which the company may take on. */
  ghost predicate Grows(before: seq<Account>, after: seq<Account>) {
    && |before| <= |after|
    && forall i :: 0 <= i < |before| ==>
         after[i] == before[i] || (before[i].owner == Unlinked && after[i] == before[i].(owner := ThisCompany))
  }

  lemma GrowsTransitive(a: seq<Account>, b: seq<Account>, c: seq<Account>)
    requires Grows(a, b) && Grows(b, c)
    ensures Grows(a, c)
  {
  }

  /** What a resolved spec gets: a movement account of this company under its colectiva, by its name. */
  ghost predicate Serves(accounts: seq<Account>, id: AccountId, key: NameKey) {
    id < |accounts| && accounts[id].Movement() && accounts[id].owner == ThisCompany
    && KeyOfAccount(accounts[id]) == key
  }

  lemma {:induction false} OwnedNamesAfterLink(accounts: seq<Account>, id: AccountId)
    requires id < |accounts| && KeyOfAccount(accounts[id]) !in OwnedNames(accounts)
    ensures OwnedNames(accounts[id := accounts[id].(owner := ThisCompany)])
         == OwnedNames(accounts)[KeyOfAccount(accounts[id]) := id]
    decreases |accounts|
  {
    var linked := accounts[id := accounts[id].(owner := ThisCompany)];
    var n := |accounts| - 1;
    if id == n {
      assert linked[..n] == accounts[..n];
    } else {
      assert linked[..n] == accounts[..n][id := accounts[id].(owner := ThisCompany)];
      assert linked[n] == accounts[n];
      OwnedNamesAfterLink(accounts[..n], id);
    }
  }

  /** What a resolution does to the index of owned names. */
  lemma ResolveOneNames(accounts: seq<Account>, spec: Spec)
    requires ResolveOne(accounts, spec).Ok?
    ensures OwnedNames(ResolveOne(accounts, spec).value.0)
         == OwnedNames(accounts)[KeyOfSpec(spec) := ResolveOne(accounts, spec).value.1]
  {
    var key := KeyOfSpec(spec);
    OwnedNamesSound(accounts, key);
    AllNamesSound(accounts, key);
    var (after, id) := ResolveOne(accounts, spec).value;
    if key in OwnedNames(accounts) {
    } else if key in AllNames(accounts) && accounts[AllNames(accounts)[key]].owner == Unlinked {
      OwnedNamesAfterLink(accounts, id);
    } else {
      assert after[..|after| - 1] == accounts;
    }
  }

  lemma ResolveOneServes(accounts: seq<Account>, spec: Spec)
    requires ResolveOne(accounts, spec).Ok?
    ensures Serves(ResolveOne(accounts, spec).value.0, ResolveOne(accounts, spec).value.1, KeyOfSpec(spec))
    ensures Grows(accounts, ResolveOne(accounts, spec).value.0)
    ensures TableOk(accounts) && InRubro(spec.parent) ==> TableOk(ResolveOne(accounts, spec).value.0)
  {
    var key := KeyOfSpec(spec);
    OwnedNamesSound(accounts, key);
    AllNamesSound(accounts, key);
  }

  lemma ExtendServes(table: seq<Account>, ids: Index, after: seq<Account>, id: AccountId, key: NameKey)
    requires Grows(table, after) && Serves(after, id, key)
    requires OwnedNames(after) == OwnedNames(table)[key := id]
    requires Indexed(table, ids)
    ensures Indexed(after, ids[key := id])
  {
  }

  lemma {:induction false} ResolveTable(accounts: seq<Account>, specs: seq<Spec>)
    requires ResolveEach(accounts, specs).Ok?
    ensures Grows(accounts, ResolveEach(accounts, specs).value.0)
    ensures TableOk(accounts) && (forall s :: s in specs ==> InRubro(s.parent)) ==>
              TableOk(ResolveEach(accounts, specs).value.0)
  {
    if specs != [] {
      var n := |specs| - 1;
      ResolveTable(accounts, specs[..n]);
      var table := ResolveEach(accounts, specs[..n]).value.0;
      ResolveOneServes(table, specs[n]);
      GrowsTransitive(accounts, table, ResolveOne(table, specs[n]).value.0);
    }
  }

  lemma {:induction false} ResolveKeys(accounts: seq<Account>, specs: seq<Spec>)
    requires ResolveEach(accounts, specs).Ok?
    ensures forall key :: key in ResolveEach(accounts, specs).value.1 <==> exists s :: s in specs && KeyOfSpec(s) == key
  {
    if specs != [] {
      var n := |specs| - 1;
      ResolveKeys(accounts, specs[..n]);
      assert specs == specs[..n] + [specs[n]];
    }
  }

  /** Every account of the index serves its key, and is the one the names of the table give. */
  ghost predicate Indexed(accounts: seq<Account>, ids: Index) {
    forall key :: key in ids ==>
      Serves(accounts, ids[key], key) && key in OwnedNames(accounts) && OwnedNames(accounts)[key] == ids[key]
  }

  lemma {:induction false} ResolveIndexed(accounts: seq<Account>, specs: seq<Spec>)
    requires ResolveEach(accounts, specs).Ok?
    ensures Indexed(ResolveEach(accounts, specs).value.0, ResolveEach(accounts, specs).value.1)
  {
    if specs != [] {
      var n := |specs| - 1;
      ResolveIndexed(accounts, specs[..n]);
      var (table, before) := ResolveEach(accounts, specs[..n]).value;
      var (after, id) := ResolveOne(table, specs[n]).value;
      ResolveOneServes(table, specs[n]);
      ResolveOneNames(table, specs[n]);
      ExtendServes(table, before, after, id, KeyOfSpec(specs[n]));
    }
  }

  /** Resolution maps every spec to a movement account of this company, and respects the table's constraints. */
  lemma ResolveServes(accounts: seq<Account>, specs: seq<Spec>)
    requires ResolveEach(accounts, specs).Ok?
    ensures var (after, ids) := ResolveEach(accounts, specs).value;
            && Grows(accounts, after)
            && (TableOk(accounts) && (forall s :: s in specs ==> InRubro(s.parent)) ==> TableOk(after))
            && (forall key :: key in ids <==> exists s :: s in specs && KeyOfSpec(s) == key)
            && Indexed(after, ids)
  {
    ResolveTable(accounts, specs);
    ResolveKeys(accounts, specs);
    ResolveIndexed(accounts, specs);
  }

  /** A second call with the same specs creates nothing and settles on the same accounts. */
  lemma {:induction false} ResolveIdempotent(accounts: seq<Account>, specs: seq<Spec>, again: seq<Spec>)
    requires ResolveEach(accounts, specs).Ok?
    requires forall s :: s in again ==> s in specs
    ensures var (after, ids) := ResolveEach(accounts, specs).value;
            var second := ResolveEach(after, again);
            second.Ok? && second.value.0 == after
            && (forall s :: s in again ==> KeyOfSpec(s) in ids)
            && (forall key :: key in second.value.1 ==> key in ids && second.value.1[key] == ids[key])
            && (forall s :: s in again ==> KeyOfSpec(s) in second.value.1)
  {
    ResolveServes(accounts, specs);
    if again != [] {
      var n := |again| - 1;
      assert again == again[..n] + [again[n]];
      ResolveIdempotent(accounts, specs, again[..n]);
      assert again[n] in specs;
    }
  }

  /** Resolution fails only for a non-movement account under the name, or when all 99 codes are in use. */
  lemma ResolveOneFails(accounts: seq<Account>, spec: Spec)
    ensures var r := ResolveOne(accounts, spec);
            r.Err? ==>
              || (r.error == CodesExhausted && forall k :: 1 <= k <= 99 ==> Taken(accounts, spec.parent, k))
              || (r.error == NotMovement && exists a :: a in accounts && KeyOfAccount(a) == KeyOfSpec(spec)
                                                        && a.owner != OtherCompany && !a.Movement())
  {
    OwnedNamesSound(accounts, KeyOfSpec(spec));
    AllNamesSound(accounts, KeyOfSpec(spec));
  }

  /** The accounts by name, as they were read before the loop, are still right for every name not yet resolved. */
  ghost predicate StillRight(byParentName: Index, existing: Index, accounts: seq<Account>) {
    forall key :: key !in existing ==>
      (key in byParentName <==> key in AllNames(accounts))
      && (key in byParentName ==> byParentName[key] == AllNames(accounts)[key])
  }

  /** The body of the loop: the account of one spec, found, linked or created. */
  method ResolveSpec(company: Company, spec: Spec, existing: Index, byParentName: Index)
      returns (failure: Option<Error>, id: AccountId, known: Index)
    requires existing == OwnedNames(company.accounts) && StillRight(byParentName, existing, company.accounts)
    modifies company
    ensures company.State() == old(company.State()).(accounts := company.accounts)
    ensures match ResolveOne(old(company.accounts), spec)
            case Ok(r) => failure.None? && (company.accounts, id) == r && known == OwnedNames(company.accounts)
                          && StillRight(byParentName, known, company.accounts)
            case Err(error) => failure == Some(error)
  {
    var key := KeyOfSpec(spec);
    ghost var before := company.accounts;
    OwnedNamesSound(before, key);
    AllNamesSound(before, key);
    failure, known := None, existing;
    if key in existing {
      id := existing[key];
      if !company.accounts[id].Movement() {
        failure := Some(NotMovement);
      }
    } else if key in byParentName && company.accounts[byParentName[key]].owner == Unlinked {
      id := byParentName[key];
      company.accounts := company.accounts[id := company.accounts[id].(owner := ThisCompany)];
      known := existing[key := id];
      if !company.accounts[id].Movement() {
        return Some(NotMovement), id, known;
      }
      ResolveOneNames(before, spec);
      AllNamesAfterLink(before, id);
    } else {
      var suffix := NextChildSuffix(company.accounts, spec.parent);
      if suffix.None? {
        return Some(CodesExhausted), 0, known;
      }
      id := |company.accounts|;
      company.accounts := company.accounts + [NewAccount(spec.parent, suffix.value, spec.name)];
      known := existing[key := id];
      ResolveOneNames(before, spec);
      assert company.accounts[..|before|] == before;
    }
  }

  method ResolveCompanyMovementAccounts(company: Company, specs: seq<Spec>)
      returns (failure: Option<Error>, ids: Index)
    modifies company
    ensures match Resolve(old(company.State()), specs)
            case Ok(r) => failure.None? && company.State() == r.0 && ids == r.1
            case Err(error) => failure == Some(error) && company.State() == old(company.State())
  {
    ids := map[];
    if exists s :: s in specs && s.parent !in company.chart {
      return Some(UnknownParent), ids;
    }
    var start := company.State();
    var existing := OwnedNames(company.accounts);
    var byParentName := AllNames(company.accounts);
    for i := 0 to |specs|
      invariant company.State() == start.(accounts := company.accounts)
      invariant existing == OwnedNames(company.accounts)
      invariant StillRight(byParentName, existing, company.accounts)
      invariant ResolveEach(start.accounts, specs[..i]) == Ok((company.accounts, ids))
    {
      var id;
      failure, id, existing := ResolveSpec(company, specs[i], existing, byParentName);
      if failure.Some? {
        ErrorStays(start.accounts, specs, i);
        company.Restore(start);
        return failure, map[];
      }
      ResolveStep(start.accounts, specs, i);
      ids := ids[KeyOfSpec(specs[i]) := id];
    }
    assert specs[..|specs|] == specs;
    return None, ids;
  }

  lemma {:induction false} AllNamesAfterLink(accounts: seq<Account>, id: AccountId)
    requires id < |accounts|
    ensures AllNames(accounts[id := accounts[id].(owner := ThisCompany)]) == AllNames(accounts)
    decreases |accounts|
  {
    var linked := accounts[id := accounts[id].(owner := ThisCompany)];
    var n := |accounts| - 1;
    if id == n {
      assert linked[..n] == accounts[..n];
    } else {
      assert linked[..n] == accounts[..n][id := accounts[id].(owner := ThisCompany)];
      AllNamesAfterLink(accounts[..n], id);
    }
  }

  /** One turn of the resolution loop. */
  lemma ResolveStep(accounts: seq<Account>, specs: seq<Spec>, i: nat)
    requires i < |specs| && ResolveEach(accounts, specs[..i]).Ok?
    requires ResolveOne(ResolveEach(accounts, specs[..i]).value.0, specs[i]).Ok?
    ensures var (before, ids) := ResolveEach(accounts, specs[..i]).value;
            var (after, id) := ResolveOne(before, specs[i]).value;
            ResolveEach(accounts, specs[..i + 1]) == Ok((after, ids[KeyOfSpec(specs[i]) := id]))
  {
    assert specs[..i + 1][..i] == specs[..i];
  }

  /** The resolution stops at the first spec that cannot be resolved. */
  lemma ErrorStays(accounts: seq<Account>, specs: seq<Spec>, i: nat)
    requires i < |specs| && ResolveEach(accounts, specs[..i]).Ok?
    requires ResolveOne(ResolveEach(accounts, specs[..i]).value.0, specs[i]).Err?
    ensures ResolveEach(accounts, specs)
         == Err(ResolveOne(ResolveEach(accounts, specs[..i]).value.0, specs[i]).error)
  {
    var fold := (xs: seq<Spec>) => ResolveEach(accounts, xs);
    assert StopsAtFailure(fold);
    assert specs[..i + 1][..i] == specs[..i];
    FirstFailure(fold, specs, i + 1);
  }
}
