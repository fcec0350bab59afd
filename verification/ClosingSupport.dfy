/** The support accounts a closing needs, created on demand. */
module ClosingSupport {
  import opened Basics
  import opened Model
  import opened AccountResolution

  const CASH := Code(1, 1)
  const INVENTORY := Code(1, 9)
  const RESULT := Code(3, 2)

  /** The colectivas the closing creates itself when the chart lacks them. */
  const CLOSING_PARENTS: set<Code> :=
    {RESULT, Code(4, 1), Code(4, 12), Code(4, 13), Code(5, 6), Code(5, 7)}

  const SUPPORT: seq<Spec> := [
    Spec(CASH, "Caja"),
    Spec(INVENTORY, "Mercaderías"),
    Spec(RESULT, "Resultado del Ejercicio"),
    Spec(Code(4, 1), "Costo de Mercaderías Vendidas"),
    Spec(Code(4, 12), "Faltante de Caja"),
    Spec(Code(4, 13), "Faltante de Mercaderías"),
    Spec(Code(5, 6), "Sobrante de Caja"),
    Spec(Code(5, 7), "Sobrante de Mercaderías")
  ]

  function EnsureOne(accounts: seq<Account>, chart: set<Code>, spec: Spec): Result<(seq<Account>, AccountId)> {
    var key := KeyOfSpec(spec);
    if key in OwnedNames(accounts) then Ok((accounts, OwnedNames(accounts)[key]))
    else if spec.parent !in chart then Err(UnknownParent)
    else
      match LeastFree(accounts, spec.parent, 1)
      case None => Err(CodesExhausted)
      case Some(suffix) => Ok((accounts + [NewAccount(spec.parent, suffix, spec.name)], |accounts|))
  }

  function EnsureEach(accounts: seq<Account>, chart: set<Code>, specs: seq<Spec>): Result<(seq<Account>, Index)> {
    if specs == [] then Ok((accounts, map[]))
    else
      var n := |specs| - 1;
      var before :- EnsureEach(accounts, chart, specs[..n]);
      var last :- EnsureOne(before.0, chart, specs[n]);
      Ok((last.0, before.1[KeyOfSpec(specs[n]) := last.1]))
  }

  /** `ensure_company_closing_accounts`. */
  function EnsureSupport(b: Books): Result<(Books, Index)> {
    var chart := b.chart + CLOSING_PARENTS;
    var r :- EnsureEach(b.accounts, chart, SUPPORT);
    Ok((b.(accounts := r.0, chart := chart), r.1))
  }

  lemma EnsureOneServes(accounts: seq<Account>, chart: set<Code>, spec: Spec)
    requires EnsureOne(accounts, chart, spec).Ok? && TableOk(accounts) && InRubro(spec.parent)
    ensures var (after, id) := EnsureOne(accounts, chart, spec).value;
            && accounts <= after && TableOk(after)
            && Serves(after, id, KeyOfSpec(spec))
  {
    OwnedNamesSound(accounts, KeyOfSpec(spec));
  }

  lemma EnsureOneNames(accounts: seq<Account>, chart: set<Code>, spec: Spec)
    requires EnsureOne(accounts, chart, spec).Ok?
    ensures var (after, id) := EnsureOne(accounts, chart, spec).value;
            OwnedNames(after) == OwnedNames(accounts)[KeyOfSpec(spec) := id]
  {
    var (after, id) := EnsureOne(accounts, chart, spec).value;
    if KeyOfSpec(spec) !in OwnedNames(accounts) {
      assert after[..|after| - 1] == accounts;
    }
  }

  lemma {:induction false} EnsureTable(accounts: seq<Account>, chart: set<Code>, specs: seq<Spec>)
    requires EnsureEach(accounts, chart, specs).Ok? && TableOk(accounts)
    requires forall s :: s in specs ==> InRubro(s.parent)
    ensures accounts <= EnsureEach(accounts, chart, specs).value.0 && TableOk(EnsureEach(accounts, chart, specs).value.0)
  {
    if specs != [] {
      var n := |specs| - 1;
      EnsureTable(accounts, chart, specs[..n]);
      EnsureOneServes(EnsureEach(accounts, chart, specs[..n]).value.0, chart, specs[n]);
    }
  }

  /** Every support account exists afterwards as a movement account of this company; no row changes. */
  lemma EnsureServes(accounts: seq<Account>, chart: set<Code>, specs: seq<Spec>)
    requires EnsureEach(accounts, chart, specs).Ok? && TableOk(accounts)
    requires forall s :: s in specs ==> InRubro(s.parent)
    ensures var (after, ids) := EnsureEach(accounts, chart, specs).value;
            && accounts <= after && TableOk(after)
            && (forall key :: key in ids <==> exists s :: s in specs && KeyOfSpec(s) == key)
            && (forall key :: key in ids ==> Serves(after, ids[key], key))
  {
    EnsureTable(accounts, chart, specs);
    EnsureNames(accounts, chart, specs);
    var (after, ids) := EnsureEach(accounts, chart, specs).value;
    forall key | key in ids ensures Serves(after, ids[key], key) {
      OwnedNamesSound(after, key);
    }
  }

  /** Ensuring accounts that already exist creates nothing. */
  lemma {:induction false} EnsureExisting(accounts: seq<Account>, chart: set<Code>, specs: seq<Spec>)
    requires forall s :: s in specs ==> KeyOfSpec(s) in OwnedNames(accounts)
    ensures var r := EnsureEach(accounts, chart, specs);
            && r.Ok? && r.value.0 == accounts
            && (forall key :: key in r.value.1 <==> exists s :: s in specs && KeyOfSpec(s) == key)
            && (forall key :: key in r.value.1 ==>
                  key in OwnedNames(accounts) && r.value.1[key] == OwnedNames(accounts)[key])
  {
    if specs != [] {
      var n := |specs| - 1;
      assert specs == specs[..n] + [specs[n]];
      EnsureExisting(accounts, chart, specs[..n]);
    }
  }

  /** The index an ensuring returns is what the names it leaves say. */
  lemma {:induction false} EnsureNames(accounts: seq<Account>, chart: set<Code>, specs: seq<Spec>)
    requires EnsureEach(accounts, chart, specs).Ok?
    ensures var (after, ids) := EnsureEach(accounts, chart, specs).value;
            && (forall key :: key in ids <==> exists s :: s in specs && KeyOfSpec(s) == key)
            && (forall key :: key in ids ==> key in OwnedNames(after) && OwnedNames(after)[key] == ids[key])
  {
    if specs != [] {
      var n := |specs| - 1;
      EnsureNames(accounts, chart, specs[..n]);
      EnsureOneNames(EnsureEach(accounts, chart, specs[..n]).value.0, chart, specs[n]);
      assert specs == specs[..n] + [specs[n]];
    }
  }

  /** Once every support account exists, ensuring them again changes nothing and finds the same ones. */
  lemma EnsureAgain(b: Books, later: Books)
    requires EnsureSupport(b).Ok?
    requires later.accounts == EnsureSupport(b).value.0.accounts && later.chart == EnsureSupport(b).value.0.chart
    ensures EnsureSupport(later) == Ok((later, EnsureSupport(b).value.1))
  {
    var chart := b.chart + CLOSING_PARENTS;
    EnsureNames(b.accounts, chart, SUPPORT);
    var (after, ids) := EnsureEach(b.accounts, chart, SUPPORT).value;
    forall s | s in SUPPORT ensures KeyOfSpec(s) in OwnedNames(after) {
      assert KeyOfSpec(s) in ids;
    }
    assert later.chart + CLOSING_PARENTS == later.chart;
    EnsureExisting(after, later.chart, SUPPORT);
    assert EnsureEach(after, later.chart, SUPPORT).value.1 == ids;
  }

  /** Ensuring fails only when a support account is missing and its colectiva is absent or full. */
  lemma EnsureOneFails(accounts: seq<Account>, chart: set<Code>, spec: Spec)
    ensures var r := EnsureOne(accounts, chart, spec);
            r.Err? <==>
              && KeyOfSpec(spec) !in OwnedNames(accounts)
              && (spec.parent !in chart || forall k :: 1 <= k <= 99 ==> Taken(accounts, spec.parent, k))
  {
  }

  /** The loop of `ensure_company_closing_accounts`. */
  method EnsureCompanyClosingAccounts(company: Company) returns (failure: Option<Error>, ids: Index)
    modifies company
    ensures match EnsureSupport(old(company.State()))
            case Ok(r) => failure.None? && company.State() == r.0 && ids == r.1
            case Err(error) => failure == Some(error) && company.State() == old(company.State())
  {
    ids := map[];
    var start := company.State();
    company.chart := company.chart + CLOSING_PARENTS;
    var existing := OwnedNames(company.accounts);
    for i := 0 to |SUPPORT|
      invariant company.State() == start.(accounts := company.accounts, chart := start.chart + CLOSING_PARENTS)
      invariant EnsureEach(start.accounts, company.chart, SUPPORT[..i]) == Ok((company.accounts, ids))
      invariant |start.accounts| <= |company.accounts|
      invariant forall j :: i <= j < |SUPPORT| ==>
        var key := KeyOfSpec(SUPPORT[j]);
        (key in existing <==> key in OwnedNames(company.accounts))
        && (key in existing ==> existing[key] == OwnedNames(company.accounts)[key])
    {
      var spec := SUPPORT[i];
      var key := KeyOfSpec(spec);
      ghost var before := company.accounts;
      assert SUPPORT[..i + 1][..i] == SUPPORT[..i];
      var id: AccountId;
      EnsureStep(start.accounts, company.chart, SUPPORT, i);
      if key in existing {
        id := existing[key];
      } else {
        if spec.parent !in company.chart {
          company.Restore(start);
          return Some(UnknownParent), map[];
        }
        var suffix := NextChildSuffix(company.accounts, spec.parent);
        if suffix.None? {
          company.Restore(start);
          return Some(CodesExhausted), map[];
        }
        id := |company.accounts|;
        company.accounts := company.accounts + [NewAccount(spec.parent, suffix.value, spec.name)];
        assert company.accounts[..|before|] == before;
        SupportParentsDistinct();
      }
      ids := ids[key := id];
    }
    assert SUPPORT[..|SUPPORT|] == SUPPORT;
    return None, ids;
  }

  lemma SupportInRubro()
    ensures forall s :: s in SUPPORT ==> InRubro(s.parent)
  {
    forall i | 0 <= i < |SUPPORT| ensures InRubro(SUPPORT[i].parent) {
    }
  }

  /** The eight support accounts hang from eight different colectivas. */
  lemma SupportParentsDistinct()
    ensures forall i, j :: 0 <= i < j < |SUPPORT| ==> SUPPORT[i].parent != SUPPORT[j].parent
  {
  }

  /** One turn of the loop, and what a turn that fails makes of the whole. */
  lemma EnsureStep(accounts: seq<Account>, chart: set<Code>, specs: seq<Spec>, i: nat)
    requires i < |specs| && EnsureEach(accounts, chart, specs[..i]).Ok?
    ensures var before := EnsureEach(accounts, chart, specs[..i]).value;
            match EnsureOne(before.0, chart, specs[i])
            case Ok(r) => EnsureEach(accounts, chart, specs[..i + 1]) == Ok((r.0, before.1[KeyOfSpec(specs[i]) := r.1]))
            case Err(error) => EnsureEach(accounts, chart, specs) == Err(error)
  {
    assert specs[..i + 1][..i] == specs[..i];
    assert specs[..i + 1][i] == specs[i];
    var before := EnsureEach(accounts, chart, specs[..i]).value;
    if EnsureOne(before.0, chart, specs[i]).Err? {
      assert EnsureEach(accounts, chart, specs[..i + 1]) == Err(EnsureOne(before.0, chart, specs[i]).error);
      EnsureStops(accounts, chart, specs, i + 1);
    }
  }

  lemma EnsureStops(accounts: seq<Account>, chart: set<Code>, specs: seq<Spec>, i: nat)
    requires i <= |specs| && EnsureEach(accounts, chart, specs[..i]).Err?
    ensures EnsureEach(accounts, chart, specs) == EnsureEach(accounts, chart, specs[..i])
  {
    var fold := (xs: seq<Spec>) => EnsureEach(accounts, chart, xs);
    assert StopsAtFailure(fold);
    FirstFailure(fold, specs, i);
  }
}
