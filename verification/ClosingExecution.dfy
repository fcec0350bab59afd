/** Executing a plan: resolving virtual accounts to support accounts and posting the drafts. */
module ClosingExecution {
  import opened Basics
  import opened Model
  import opened Turnovers
  import opened Journal
  import opened AccountResolution
  import opened ClosingSupport
  import opened Balances
  import opened ClosingPlan
  import opened ClosingService

  function SupportKey(r: AccountRef): NameKey { NameKey(r.parent, Norm(r.name)) }

  predicate Resolvable(support: Index, l: DraftLine) { l.ref.id.Some? || SupportKey(l.ref) in support }

  /** The account a reference is posted to. */
  function Target(support: Index, r: AccountRef): AccountId {
    match r.id
    case Some(id) => id
    case None => if SupportKey(r) in support then support[SupportKey(r)] else 0
  }

  function Resolved(support: Index, lines: seq<DraftLine>): seq<Line> {
    seq(|lines|, i requires 0 <= i < |lines| => Line(Target(support, lines[i].ref), lines[i].side, lines[i].amount))
  }

  /** The loop of `_resolve_line_account_ids`. */
  function ResolveLines(support: Index, lines: seq<DraftLine>): Result<seq<Line>> {
    if forall l :: l in lines ==> Resolvable(support, l) then Ok(Resolved(support, lines)) else Err(SupportUnavailable)
  }

  function PostDraft(b: Books, support: Index, d: Draft): Result<Books> {
    var lines :- ResolveLines(support, d.lines);
    Post(b, d.date, d.source, lines)
  }

  function PostDrafts(b: Books, support: Index, drafts: seq<Draft>): Result<Books> {
    if drafts == [] then Ok(b)
    else
      var n := |drafts| - 1;
      var before :- PostDrafts(b, support, drafts[..n]);
      PostDraft(before, support, drafts[n])
  }

  /** The drafts posted against the support accounts, which are ensured once. */
  function PostAll(b: Books, drafts: seq<Draft>): Result<Books> {
    var supported :- EnsureSupport(b);
    PostDrafts(supported.0, supported.1, drafts)
  }

  /** The snapshot and the lock a closing leaves behind its entries. */
  function Sealed(b: Books, req: Request, plan: Plan): Books {
    var n := |b.entries|;
    if n < 2 then b
    else b.(closedUntil := Some(req.closing),
            snapshots := b.snapshots + [Snapshot(b.entries[n - 2].number, b.entries[n - 1].number,
                                                 req.closing, req.reopening, plan.sheet, plan.snapshotLines)])
  }

  function ExecutePlan(b: Books, req: Request, plan: Plan): Result<Books> {
    var posted :- PostAll(b, plan.Drafts());
    Ok(Sealed(posted, req, plan))
  }

  /** `execute_simplified_closing`. */
  function Execute(b: Books, req: Request): Result<Books> {
    match BuildPlan(b, req)
    case Ok(plan) => ExecutePlan(b, req, plan)
    case Err(error) => Err(error)
  }

  lemma DraftsStop(b: Books, support: Index, drafts: seq<Draft>, i: nat)
    requires i <= |drafts| && PostDrafts(b, support, drafts[..i]).Err?
    ensures PostDrafts(b, support, drafts) == PostDrafts(b, support, drafts[..i])
  {
    var fold := (xs: seq<Draft>) => PostDrafts(b, support, xs);
    assert StopsAtFailure(fold);
    FirstFailure(fold, drafts, i);
  }

  lemma {:induction false} PostingKeepsAccounts(b: Books, support: Index, drafts: seq<Draft>)
    requires PostDrafts(b, support, drafts).Ok?
    ensures var after := PostDrafts(b, support, drafts).value;
            && after.accounts == b.accounts && after.chart == b.chart
            && after.closedUntil == b.closedUntil && after.snapshots == b.snapshots
            && |after.entries| == |b.entries| + |drafts|
  {
    if drafts != [] {
      PostingKeepsAccounts(b, support, drafts[..|drafts| - 1]);
    }
  }

  /** `_resolve_line_account_ids`: the support accounts are ensured first, whether or not a line needs one. */
  method ResolveLineAccountIds(company: Company, lines: seq<DraftLine>) returns (r: Result<seq<Line>>)
    modifies company
    ensures match EnsureSupport(old(company.State()))
            case Ok(s) => company.State() == s.0 && r == ResolveLines(s.1, lines)
            case Err(error) => r == Err(error) && company.State() == old(company.State())
  {
    var failure, support := EnsureCompanyClosingAccounts(company);
    if failure.Some? {
      return Err(failure.value);
    }
    var resolved: seq<Line> := [];
    for i := 0 to |lines|
      invariant resolved == Resolved(support, lines)[..i]
      invariant forall l :: l in lines[..i] ==> Resolvable(support, l)
    {
      var l := lines[i];
      assert l in lines;
      assert lines[..i + 1] == lines[..i] + [l];
      var id: AccountId;
      match l.ref.id {
        case Some(known) => id := known;
        case None =>
          var key := NameKey(l.ref.parent, Norm(l.ref.name));
          if key !in support {
            return Err(SupportUnavailable);
          }
          id := support[key];
      }
      resolved := resolved + [Line(id, l.side, l.amount)];
    }
    assert lines[..|lines|] == lines;
    assert resolved == Resolved(support, lines);
    return Ok(resolved);
  }

  /** One turn of the posting loop: ensure, resolve, post. Posting a prefix and then one draft more posts a longer
      prefix. */
  lemma PostOneMore(b: Books, drafts: seq<Draft>, i: nat)
    requires i < |drafts|
    ensures i == 0 ==> PostAll(b, drafts[..1]) == PostAll(b, [drafts[0]])
    ensures i > 0 && PostAll(b, drafts[..i]).Ok? ==>
              PostAll(b, drafts[..i + 1]) == PostAll(PostAll(b, drafts[..i]).value, [drafts[i]])
    ensures PostAll(b, drafts[..i + 1]).Err? ==> PostAll(b, drafts) == PostAll(b, drafts[..i + 1])
  {
    assert drafts[..1] == [drafts[0]];
    if EnsureSupport(b).Ok? {
      var (ready, support) := EnsureSupport(b).value;
      assert drafts[..i + 1][..i] == drafts[..i];
      if PostDrafts(ready, support, drafts[..i]).Ok? {
        var before := PostDrafts(ready, support, drafts[..i]).value;
        PostingKeepsAccounts(ready, support, drafts[..i]);
        EnsureAgain(b, before);
        assert PostDrafts(before, support, []) == Ok(before);
        assert [drafts[i]][..0] == [];
      }
      if PostDrafts(ready, support, drafts[..i + 1]).Err? {
        DraftsStop(ready, support, drafts, i + 1);
      }
    }
  }

  lemma PostAllOne(b: Books, d: Draft)
    ensures PostAll(b, [d]) == match EnsureSupport(b)
                               case Ok(s) => PostDraft(s.0, s.1, d)
                               case Err(error) => Err(error)
  {
    assert [d][..0] == [];
    if EnsureSupport(b).Ok? {
      var (ready, support) := EnsureSupport(b).value;
      assert PostDrafts(ready, support, [d][..0]) == Ok(ready);
    }
  }

  method PostOne(company: Company, d: Draft) returns (failure: Option<Error>)
    modifies company
    ensures match PostAll(old(company.State()), [d])
            case Ok(books) => failure.None? && company.State() == books
            case Err(error) => failure == Some(error)
  {
    PostAllOne(company.State(), d);
    var lines := ResolveLineAccountIds(company, d.lines);
    if lines.Err? {
      return Some(lines.error);
    }
    failure := CreateJournalEntry(company, d.date, d.source, lines.value);
  }

  /** The posting loop of the execution. */
  method PostEach(company: Company, drafts: seq<Draft>) returns (failure: Option<Error>)
    requires drafts != []
    modifies company
    ensures match PostAll(old(company.State()), drafts)
            case Ok(books) => failure.None? && company.State() == books
            case Err(error) => failure == Some(error)
  {
    ghost var start := company.State();
    for i := 0 to |drafts|
      invariant i == 0 ==> company.State() == start
      invariant i > 0 ==> PostAll(start, drafts[..i]) == Ok(company.State())
    {
      PostOneMore(start, drafts, i);
      failure := PostOne(company, drafts[i]);
      if failure.Some? {
        return;
      }
    }
    assert drafts[..|drafts|] == drafts;
    return None;
  }

  lemma PostAllGrows(b: Books, drafts: seq<Draft>)
    requires PostAll(b, drafts).Ok?
    ensures |PostAll(b, drafts).value.entries| == |b.entries| + |drafts|
  {
    PostingKeepsAccounts(EnsureSupport(b).value.0, EnsureSupport(b).value.1, drafts);
  }

  method PostPlan(company: Company, req: Request, plan: Plan) returns (failure: Option<Error>)
    modifies company
    ensures Outcome(old(company.State()), ExecutePlan(old(company.State()), req, plan), company.State(), failure)
  {
    hide PostAll;
    var start := company.State();
    failure := PostEach(company, plan.Drafts());
    if failure.Some? {
      company.Restore(start);
      return;
    }
    PostAllGrows(start, plan.Drafts());
    var n := |company.entries|;
    var snapshot := Snapshot(company.entries[n - 2].number, company.entries[n - 1].number,
                             req.closing, req.reopening, plan.sheet, plan.snapshotLines);
    company.snapshots := company.snapshots + [snapshot];
    company.closedUntil := Some(req.closing);
    return None;
  }

  method ExecuteSimplifiedClosing(company: Company, req: Request) returns (failure: Option<Error>)
    modifies company
    ensures Outcome(old(company.State()), Execute(old(company.State()), req), company.State(), failure)
  {
    var planned := BuildSimplifiedClosingPlan(company.State(), req);
    if planned.Err? {
      return Some(planned.error);
    }
    failure := PostPlan(company, req, planned.value);
  }
}
