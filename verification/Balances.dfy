/** Balance nodes: the map a closing plan is computed over, in the insertion order of its keys. */
module Balances {
  import opened Basics
  import opened Sorting
  import opened Model
  import opened Turnovers
  import opened AccountResolution
  import opened ClosingSupport

  /** `_account_key`: real and virtual nodes never share a key. */
  datatype NodeKey = RealKey(id: AccountId) | VirtualKey(parent: Code, name: string)

  function KeyOf(r: AccountRef): NodeKey {
    match r.id
    case Some(id) => RealKey(id)
    case None => VirtualKey(r.parent, Norm(r.name))
  }

  datatype BalanceNode = BalanceNode(ref: AccountRef, debit: int, credit: int) {
    /** The balance on one side: zero where the other side is heavier. */
    function Balance(side: Side): nat {
      Positive(if side == Debit then debit - credit else credit - debit)
    }
  }

  datatype DraftLine = DraftLine(ref: AccountRef, side: Side, amount: int)

  datatype Draft = Draft(date: Date, source: SourceType, lines: seq<DraftLine>)

  function RefOf(accounts: seq<Account>, id: AccountId): AccountRef
    requires id < |accounts|
  {
    AccountRef(Some(id), Some(accounts[id].suffix), accounts[id].name, accounts[id].parent)
  }

  function VirtualRef(parent: Code, name: string): AccountRef { AccountRef(None, None, name, parent) }

  // Applying a draft.

  /** The position of the first node with a key, or the number of nodes. */
  function IndexOf(nodes: seq<BalanceNode>, key: NodeKey): (i: nat)
    ensures i <= |nodes|
    ensures i < |nodes| ==> KeyOf(nodes[i].ref) == key
    ensures forall j :: 0 <= j < i ==> KeyOf(nodes[j].ref) != key
  {
    if nodes == [] || KeyOf(nodes[0].ref) == key then 0 else 1 + IndexOf(nodes[1..], key)
  }

  function Charge(n: BalanceNode, side: Side, amount: int): BalanceNode {
    if side == Debit then n.(debit := n.debit + amount) else n.(credit := n.credit + amount)
  }

  function ChargeAt(nodes: seq<BalanceNode>, i: nat, l: DraftLine): seq<BalanceNode>
    requires i < |nodes|
  {
    nodes[i := Charge(nodes[i], l.side, l.amount)]
  }

  /** A line goes to the node of its key; failing that to the virtual node of its colectiva and name,
      which is added if it is missing. */
  function ApplyLine(nodes: seq<BalanceNode>, l: DraftLine): seq<BalanceNode> {
    var i := IndexOf(nodes, KeyOf(l.ref));
    if i < |nodes| then ChargeAt(nodes, i, l)
    else
      var virtual := VirtualRef(l.ref.parent, l.ref.name);
      var j := IndexOf(nodes, KeyOf(virtual));
      if j < |nodes| then ChargeAt(nodes, j, l)
      else nodes + [Charge(BalanceNode(virtual, 0, 0), l.side, l.amount)]
  }

  function ApplyLines(nodes: seq<BalanceNode>, lines: seq<DraftLine>): seq<BalanceNode> {
    if lines == [] then nodes
    else ApplyLine(ApplyLines(nodes, lines[..|lines| - 1]), lines[|lines| - 1])
  }

  lemma ApplyNone(nodes: seq<BalanceNode>, lines: seq<DraftLine>)
    ensures ApplyLines(nodes, lines[..0]) == nodes
  {
  }

  lemma ApplyOneMore(nodes: seq<BalanceNode>, lines: seq<DraftLine>, k: nat)
    requires k < |lines|
    ensures ApplyLines(nodes, lines[..k + 1]) == ApplyLine(ApplyLines(nodes, lines[..k]), lines[k])
  {
    assert lines[..k + 1][..k] == lines[..k];
  }

  // Sums over nodes and over draft lines.

  type Selection = AccountRef -> bool

  function AnyRef(): Selection { (r: AccountRef) => true }
  function Under(parent: Code): Selection { (r: AccountRef) => r.parent == parent }
  function Rooted(root: nat): Selection { (r: AccountRef) => r.parent.root == root }
  function Patrimonial(): Selection { (r: AccountRef) => r.parent.root == 1 || r.parent.root == 2 || r.parent.root == 3 }
  function Both(p: Selection, q: Selection): Selection { (r: AccountRef) => p(r) && q(r) }

  /** The turnover of the selected nodes on one side. */
  function Sum(nodes: seq<BalanceNode>, side: Side, p: Selection): int {
    if nodes == [] then 0
    else
      var n := |nodes| - 1;
      Sum(nodes[..n], side, p)
      + if p(nodes[n].ref) then (if side == Debit then nodes[n].debit else nodes[n].credit) else 0
  }

  function SumNet(nodes: seq<BalanceNode>, p: Selection): int { Sum(nodes, Debit, p) - Sum(nodes, Credit, p) }

  /** The balances of the selected nodes on one side, node by node. */
  function SumBalance(nodes: seq<BalanceNode>, side: Side, p: Selection): nat {
    if nodes == [] then 0
    else
      var n := |nodes| - 1;
      SumBalance(nodes[..n], side, p) + if p(nodes[n].ref) then nodes[n].Balance(side) else 0
  }

  function DraftSum(lines: seq<DraftLine>, side: Side, p: Selection): int {
    if lines == [] then 0
    else
      var n := |lines| - 1;
      DraftSum(lines[..n], side, p) + if lines[n].side == side && p(lines[n].ref) then lines[n].amount else 0
  }

  function DraftNet(lines: seq<DraftLine>, p: Selection): int { DraftSum(lines, Debit, p) - DraftSum(lines, Credit, p) }

  /** Net turnover is the debit balances less the credit balances. */
  lemma {:induction false} NetIsBalances(nodes: seq<BalanceNode>, p: Selection)
    ensures SumNet(nodes, p) == SumBalance(nodes, Debit, p) - SumBalance(nodes, Credit, p)
  {
    if nodes != [] {
      NetIsBalances(nodes[..|nodes| - 1], p);
    }
  }

  lemma {:induction false} DraftSumConcat(a: seq<DraftLine>, b: seq<DraftLine>, side: Side, p: Selection)
    ensures DraftSum(a + b, side, p) == DraftSum(a, side, p) + DraftSum(b, side, p)
  {
    if b == [] {
      assert a + b == a;
    } else {
      var n := |b| - 1;
      assert (a + b)[..|a| + n] == a + b[..n];
      DraftSumConcat(a, b[..n], side, p);
    }
  }

  lemma {:induction false} SumChargeAt(nodes: seq<BalanceNode>, i: nat, l: DraftLine, side: Side, p: Selection)
    requires i < |nodes|
    ensures Sum(ChargeAt(nodes, i, l), side, p)
         == Sum(nodes, side, p) + if l.side == side && p(nodes[i].ref) then l.amount else 0
    decreases |nodes|
  {
    var n := |nodes| - 1;
    var charged := ChargeAt(nodes, i, l);
    if i == n {
      assert charged[..n] == nodes[..n];
    } else {
      assert charged[..n] == ChargeAt(nodes[..n], i, l);
      SumChargeAt(nodes[..n], i, l, side, p);
    }
  }

  // Where references come from: the account table, or the eight support accounts.

  ghost predicate Canonical(accounts: seq<Account>, r: AccountRef) {
    match r.id
    case Some(id) => id < |accounts| && accounts[id].owner == ThisCompany && r == RefOf(accounts, id)
    case None => exists s :: s in SUPPORT && r == VirtualRef(s.parent, s.name)
  }

  ghost predicate CanonicalNodes(accounts: seq<Account>, nodes: seq<BalanceNode>) {
    forall n :: n in nodes ==> Canonical(accounts, n.ref)
  }

  /** Lines over canonical accounts, the real ones among them already having a node. */
  ghost predicate CanonicalLines(accounts: seq<Account>, nodes: seq<BalanceNode>, lines: seq<DraftLine>) {
    forall l :: l in lines ==>
      Canonical(accounts, l.ref) && (l.ref.id.Some? ==> exists n :: n in nodes && n.ref == l.ref)
  }

  /** Canonical references are told apart by their keys. */
  lemma KeysTellApart(accounts: seq<Account>, r: AccountRef, s: AccountRef)
    requires Canonical(accounts, r) && Canonical(accounts, s) && KeyOf(r) == KeyOf(s)
    ensures r == s
  {
    if r.id.None? {
      SupportParentsDistinct();
    }
  }

  lemma FoundIfPresent(nodes: seq<BalanceNode>, r: AccountRef)
    requires exists n :: n in nodes && n.ref == r
    ensures IndexOf(nodes, KeyOf(r)) < |nodes|
  {
    var n :| n in nodes && n.ref == r;
    var j :| 0 <= j < |nodes| && nodes[j] == n;
  }

  /** Where a line lands: on the node of its own reference, or on a new node for it. */
  lemma LineLands(accounts: seq<Account>, nodes: seq<BalanceNode>, l: DraftLine) returns (i: nat)
    requires CanonicalNodes(accounts, nodes) && Canonical(accounts, l.ref)
    requires l.ref.id.Some? ==> exists n :: n in nodes && n.ref == l.ref
    ensures i <= |nodes|
    ensures i < |nodes| ==> nodes[i].ref == l.ref && ApplyLine(nodes, l) == ChargeAt(nodes, i, l)
    ensures i == |nodes| ==>
              ApplyLine(nodes, l) == nodes + [Charge(BalanceNode(l.ref, 0, 0), l.side, l.amount)]
    ensures i == |nodes| ==> forall j :: 0 <= j < |nodes| ==> nodes[j].ref != l.ref
  {
    if l.ref.id.Some? {
      FoundIfPresent(nodes, l.ref);
    }
    i := IndexOf(nodes, KeyOf(l.ref));
    if i < |nodes| {
      assert nodes[i] in nodes;
      KeysTellApart(accounts, nodes[i].ref, l.ref);
    } else {
      assert l.ref == VirtualRef(l.ref.parent, l.ref.name);
    }
  }

  lemma ApplyLineSum(accounts: seq<Account>, nodes: seq<BalanceNode>, l: DraftLine, side: Side, p: Selection)
    requires CanonicalNodes(accounts, nodes) && Canonical(accounts, l.ref)
    requires l.ref.id.Some? ==> exists n :: n in nodes && n.ref == l.ref
    ensures Sum(ApplyLine(nodes, l), side, p) == Sum(nodes, side, p) + if l.side == side && p(l.ref) then l.amount else 0
  {
    var i := LineLands(accounts, nodes, l);
    if i < |nodes| {
      SumChargeAt(nodes, i, l, side, p);
    } else {
      SumOfOneMore(nodes, Charge(BalanceNode(l.ref, 0, 0), l.side, l.amount), side, p);
    }
  }

  /** No node loses its reference, and the nodes stay canonical. */
  lemma ApplyLineRefs(accounts: seq<Account>, nodes: seq<BalanceNode>, l: DraftLine)
    requires CanonicalNodes(accounts, nodes) && Canonical(accounts, l.ref)
    requires l.ref.id.Some? ==> exists n :: n in nodes && n.ref == l.ref
    ensures CanonicalNodes(accounts, ApplyLine(nodes, l))
    ensures forall n :: n in nodes ==> exists m :: m in ApplyLine(nodes, l) && m.ref == n.ref
  {
    var i := LineLands(accounts, nodes, l);
    var after := ApplyLine(nodes, l);
    forall n | n in nodes ensures exists m :: m in after && m.ref == n.ref {
      var j :| 0 <= j < |nodes| && nodes[j] == n;
      assert after[j] in after && after[j].ref == n.ref;
    }
    forall n | n in after ensures Canonical(accounts, n.ref) {
      var j :| 0 <= j < |after| && after[j] == n;
      if j < |nodes| {
        assert nodes[j] in nodes && after[j].ref == nodes[j].ref;
      }
    }
  }

  /** Applying lines adds, for any selection of accounts, exactly what the lines carry for it. */
  lemma {:induction false} ApplyLinesAdds(accounts: seq<Account>, nodes: seq<BalanceNode>, lines: seq<DraftLine>)
    requires CanonicalNodes(accounts, nodes) && CanonicalLines(accounts, nodes, lines)
    ensures CanonicalNodes(accounts, ApplyLines(nodes, lines))
    ensures forall n :: n in nodes ==> exists m :: m in ApplyLines(nodes, lines) && m.ref == n.ref
    ensures forall side, p :: Sum(ApplyLines(nodes, lines), side, p) == Sum(nodes, side, p) + DraftSum(lines, side, p)
  {
    if lines != [] {
      var k := |lines| - 1;
      assert lines == lines[..k] + [lines[k]];
      ApplyLinesAdds(accounts, nodes, lines[..k]);
      assert lines[k] in lines;
      var before := ApplyLines(nodes, lines[..k]);
      ApplyLineRefs(accounts, before, lines[k]);
      forall side, p {
        ApplyLineSum(accounts, before, lines[k], side, p);
      }
    }
  }

  /** No two nodes share a reference. */
  ghost predicate Distinct(nodes: seq<BalanceNode>) {
    forall i, j :: 0 <= i < j < |nodes| ==> nodes[i].ref != nodes[j].ref
  }

  lemma {:induction false} ApplyLinesDistinct(accounts: seq<Account>, nodes: seq<BalanceNode>, lines: seq<DraftLine>)
    requires CanonicalNodes(accounts, nodes) && CanonicalLines(accounts, nodes, lines) && Distinct(nodes)
    ensures Distinct(ApplyLines(nodes, lines))
  {
    if lines != [] {
      var k := |lines| - 1;
      assert lines == lines[..k] + [lines[k]];
      ApplyLinesDistinct(accounts, nodes, lines[..k]);
      ApplyLinesAdds(accounts, nodes, lines[..k]);
      assert lines[k] in lines;
      var i := LineLands(accounts, ApplyLines(nodes, lines[..k]), lines[k]);
    }
  }

  function Exactly(ref: AccountRef): Selection { (r: AccountRef) => r == ref }

  lemma {:induction false} NoneSelected(nodes: seq<BalanceNode>, p: Selection)
    requires forall n :: n in nodes && p(n.ref) ==> n.debit == n.credit
    ensures SumNet(nodes, p) == 0
  {
    if nodes != [] {
      var k := |nodes| - 1;
      assert nodes == nodes[..k] + [nodes[k]];
      NoneSelected(nodes[..k], p);
    }
  }

  /** With distinct references, a node's net is what its reference selects. */
  lemma {:induction false} NodeNet(nodes: seq<BalanceNode>, i: nat)
    requires i < |nodes| && Distinct(nodes)
    ensures SumNet(nodes, Exactly(nodes[i].ref)) == nodes[i].debit - nodes[i].credit
    decreases |nodes|
  {
    var k := |nodes| - 1;
    if i == k {
      NoneSelected(nodes[..k], Exactly(nodes[k].ref));
    } else {
      NodeNet(nodes[..k], i);
    }
  }

  lemma AppliedCanonical(accounts: seq<Account>, nodes: seq<BalanceNode>, lines: seq<DraftLine>)
    requires CanonicalNodes(accounts, nodes) && CanonicalLines(accounts, nodes, lines)
    ensures CanonicalNodes(accounts, ApplyLines(nodes, lines))
  {
    ApplyLinesAdds(accounts, nodes, lines);
  }

  lemma AppliedSum(accounts: seq<Account>, nodes: seq<BalanceNode>, lines: seq<DraftLine>, side: Side, p: Selection)
    requires CanonicalNodes(accounts, nodes) && CanonicalLines(accounts, nodes, lines)
    ensures Sum(ApplyLines(nodes, lines), side, p) == Sum(nodes, side, p) + DraftSum(lines, side, p)
  {
    ApplyLinesAdds(accounts, nodes, lines);
  }

  lemma AppliedNet(accounts: seq<Account>, nodes: seq<BalanceNode>, lines: seq<DraftLine>, p: Selection)
    requires CanonicalNodes(accounts, nodes) && CanonicalLines(accounts, nodes, lines)
    ensures SumNet(ApplyLines(nodes, lines), p) == SumNet(nodes, p) + DraftNet(lines, p)
  {
    ApplyLinesAdds(accounts, nodes, lines);
  }

  // Loading the nodes from the journal.

  function CodeRank(accounts: seq<Account>): AccountId -> (int, int) {
    (id: AccountId) => if id < |accounts| then (accounts[id].parent.root * 100 + accounts[id].parent.local, accounts[id].suffix)
          else (0, 0)
  }

  function Ids(n: nat): seq<AccountId> { seq(n, i => i) }

  /** The accounts of the table in the order of their full codes. */
  function ByCode(accounts: seq<Account>): seq<AccountId> { Sort(Ids(|accounts|), CodeRank(accounts)) }

  predicate HasLine(lines: seq<Line>, id: AccountId) { exists l :: l in lines && l.account == id }

  function NodeFor(id: AccountId, accounts: seq<Account>, lines: seq<Line>): seq<BalanceNode> {
    if id < |accounts| && accounts[id].owner == ThisCompany && HasLine(lines, id)
    then [BalanceNode(RefOf(accounts, id), Turnover(lines, Debit, Only(id)), Turnover(lines, Credit, Only(id)))]
    else []
  }

  /** One node for each of the company's accounts that has a line. */
  function NodesFor(ids: seq<AccountId>, accounts: seq<Account>, lines: seq<Line>): seq<BalanceNode> {
    if ids == [] then []
    else
      var n := |ids| - 1;
      NodesFor(ids[..n], accounts, lines) + NodeFor(ids[n], accounts, lines)
  }

  /** `_load_balance_nodes`. */
  function LoadNodes(b: Books, until: Date): seq<BalanceNode> {
    NodesFor(ByCode(b.accounts), b.accounts, LinesIn(b.entries, UpTo(until)))
  }

  /** A selection of references, seen from the posted lines. */
  function Seen(accounts: seq<Account>, p: Selection): AccountId -> bool {
    (id: AccountId) => id < |accounts| && p(RefOf(accounts, id))
  }

  function SumIds(ids: seq<AccountId>, accounts: seq<Account>, lines: seq<Line>, side: Side, p: Selection): int {
    if ids == [] then 0
    else
      var n := |ids| - 1;
      SumIds(ids[..n], accounts, lines, side, p)
      + if Seen(accounts, p)(ids[n]) then Turnover(lines, side, Only(ids[n])) else 0
  }

  lemma {:induction false} NoLineNoTurnover(lines: seq<Line>, id: AccountId, side: Side)
    requires !HasLine(lines, id)
    ensures Turnover(lines, side, Only(id)) == 0
  {
    if lines != [] {
      assert lines[0] in lines;
      assert forall l :: l in lines[1..] ==> l in lines;
      NoLineNoTurnover(lines[1..], id, side);
    }
  }

  lemma SumOfOneMore(nodes: seq<BalanceNode>, n: BalanceNode, side: Side, p: Selection)
    ensures Sum(nodes + [n], side, p)
         == Sum(nodes, side, p) + if p(n.ref) then (if side == Debit then n.debit else n.credit) else 0
  {
    assert (nodes + [n])[..|nodes|] == nodes;
  }

  lemma NodeForSum(nodes: seq<BalanceNode>, id: AccountId, accounts: seq<Account>, lines: seq<Line>, side: Side,
                   p: Selection)
    requires forall l :: l in lines ==> l.account < |accounts| && accounts[l.account].owner == ThisCompany
    ensures Sum(nodes + NodeFor(id, accounts, lines), side, p)
         == Sum(nodes, side, p) + if Seen(accounts, p)(id) then Turnover(lines, side, Only(id)) else 0
  {
    if HasLine(lines, id) {
      SumOfOneMore(nodes, NodeFor(id, accounts, lines)[0], side, p);
    } else {
      assert nodes + [] == nodes;
      NoLineNoTurnover(lines, id, side);
    }
  }

  lemma {:induction false} NodesForSums(ids: seq<AccountId>, accounts: seq<Account>, lines: seq<Line>, side: Side,
                                        p: Selection)
    requires forall l :: l in lines ==> l.account < |accounts| && accounts[l.account].owner == ThisCompany
    ensures Sum(NodesFor(ids, accounts, lines), side, p) == SumIds(ids, accounts, lines, side, p)
  {
    if ids != [] {
      var n := |ids| - 1;
      NodesForSums(ids[..n], accounts, lines, side, p);
      NodeForSum(NodesFor(ids[..n], accounts, lines), ids[n], accounts, lines, side, p);
    }
  }

  lemma {:induction false} SumIdsOfOneMore(ids: seq<AccountId>, accounts: seq<Account>, l: Line, rest: seq<Line>,
                                           side: Side, p: Selection)
    requires forall i, j :: 0 <= i < j < |ids| ==> ids[i] != ids[j]
    ensures SumIds(ids, accounts, [l] + rest, side, p)
         == SumIds(ids, accounts, rest, side, p)
            + if l.side == side && l.account in ids && Seen(accounts, p)(l.account) then l.amount else 0
  {
    if ids != [] {
      var n := |ids| - 1;
      assert ids == ids[..n] + [ids[n]];
      SumIdsOfOneMore(ids[..n], accounts, l, rest, side, p);
      assert ([l] + rest)[1..] == rest;
    }
  }

  lemma {:induction false} SumIdsIsTurnover(ids: seq<AccountId>, accounts: seq<Account>, lines: seq<Line>,
                                            side: Side, p: Selection)
    requires forall i, j :: 0 <= i < j < |ids| ==> ids[i] != ids[j]
    requires forall l :: l in lines ==> l.account in ids
    ensures SumIds(ids, accounts, lines, side, p) == Turnover(lines, side, Seen(accounts, p))
  {
    if lines == [] {
      NoLinesNoSum(ids, accounts, side, p);
    } else {
      assert lines == [lines[0]] + lines[1..];
      assert lines[0] in lines;
      SumIdsIsTurnover(ids, accounts, lines[1..], side, p);
      SumIdsOfOneMore(ids, accounts, lines[0], lines[1..], side, p);
    }
  }

  lemma {:induction false} NoLinesNoSum(ids: seq<AccountId>, accounts: seq<Account>, side: Side, p: Selection)
    ensures SumIds(ids, accounts, [], side, p) == 0
  {
    if ids != [] {
      NoLinesNoSum(ids[..|ids| - 1], accounts, side, p);
    }
  }

  /** The order by code lists each account once. */
  lemma ByCodeOnce(accounts: seq<Account>)
    ensures forall id: AccountId :: id in ByCode(accounts) <==> id < |accounts|
    ensures forall i, j :: 0 <= i < j < |ByCode(accounts)| ==> ByCode(accounts)[i] != ByCode(accounts)[j]
  {
    var ids := Ids(|accounts|);
    var sorted := ByCode(accounts);
    SortMembers(ids, CodeRank(accounts));
    SortSorts(ids, CodeRank(accounts));
    forall id: AccountId ensures id in sorted <==> id < |accounts| {
      if id < |accounts| {
        assert ids[id] == id;
      }
    }
    IdsOnce(|accounts|);
    OnceEach(sorted);
  }

  lemma {:induction false} IdsOnce(n: nat)
    ensures forall id: AccountId :: multiset(Ids(n))[id] == if id < n then 1 else 0
  {
    if n > 0 {
      IdsOnce(n - 1);
      assert Ids(n) == Ids(n - 1) + [n - 1];
    }
  }

  /** The loaded nodes carry, for any selection of accounts, exactly what the journal does. */
  lemma LoadedSums(b: Books, until: Date, side: Side, p: Selection)
    requires forall l :: l in LinesIn(b.entries, UpTo(until)) ==>
               l.account < |b.accounts| && b.accounts[l.account].owner == ThisCompany
    ensures Sum(LoadNodes(b, until), side, p)
         == Turnover(LinesIn(b.entries, UpTo(until)), side, Seen(b.accounts, p))
  {
    ByCodeOnce(b.accounts);
    var lines := LinesIn(b.entries, UpTo(until));
    NodesForSums(ByCode(b.accounts), b.accounts, lines, side, p);
    SumIdsIsTurnover(ByCode(b.accounts), b.accounts, lines, side, p);
  }

  lemma {:induction false} NodesForCanonical(ids: seq<AccountId>, accounts: seq<Account>, lines: seq<Line>)
    ensures CanonicalNodes(accounts, NodesFor(ids, accounts, lines))
  {
    if ids != [] {
      NodesForCanonical(ids[..|ids| - 1], accounts, lines);
    }
  }

  lemma {:induction false} NodesForMembers(ids: seq<AccountId>, accounts: seq<Account>, lines: seq<Line>,
                                           n: BalanceNode)
    ensures n in NodesFor(ids, accounts, lines) <==>
              n.ref.id.Some? && n.ref.id.value in ids && n.ref.id.value < |accounts|
              && accounts[n.ref.id.value].owner == ThisCompany && HasLine(lines, n.ref.id.value)
              && n == BalanceNode(RefOf(accounts, n.ref.id.value), Turnover(lines, Debit, Only(n.ref.id.value)),
                                  Turnover(lines, Credit, Only(n.ref.id.value)))
  {
    if ids != [] {
      var k := |ids| - 1;
      assert ids == ids[..k] + [ids[k]];
      NodesForMembers(ids[..k], accounts, lines, n);
    }
  }

  lemma {:induction false} NodesForDistinct(ids: seq<AccountId>, accounts: seq<Account>, lines: seq<Line>)
    requires forall i, j :: 0 <= i < j < |ids| ==> ids[i] != ids[j]
    ensures Distinct(NodesFor(ids, accounts, lines))
  {
    if ids != [] {
      var k := |ids| - 1;
      var before := NodesFor(ids[..k], accounts, lines);
      NodesForDistinct(ids[..k], accounts, lines);
      forall i | 0 <= i < |before| ensures before[i].ref.id.Some? && before[i].ref.id.value != ids[k] {
        NodesForMembers(ids[..k], accounts, lines, before[i]);
        assert before[i] in before;
        var j :| 0 <= j < k && ids[..k][j] == before[i].ref.id.value;
      }
    }
  }

  lemma LoadedDistinct(b: Books, until: Date)
    ensures Distinct(LoadNodes(b, until))
  {
    ByCodeOnce(b.accounts);
    NodesForDistinct(ByCode(b.accounts), b.accounts, LinesIn(b.entries, UpTo(until)));
  }

  /** The balances as the planner updates them in place. */
  class BalanceMap {
    var nodes: seq<BalanceNode>

    constructor (loaded: seq<BalanceNode>)
      ensures nodes == loaded
    {
      nodes := loaded;
    }

    /** `_get_or_create_virtual_balance`: the position of the virtual node. */
    method GetOrCreateVirtual(parent: Code, name: string) returns (i: nat)
      modifies this
      ensures i < |nodes| && i == IndexOf(old(nodes), KeyOf(VirtualRef(parent, name)))
      ensures nodes == if i < |old(nodes)| then old(nodes) else old(nodes) + [BalanceNode(VirtualRef(parent, name), 0, 0)]
    {
      i := IndexOf(nodes, KeyOf(VirtualRef(parent, name)));
      if i == |nodes| {
        nodes := nodes + [BalanceNode(VirtualRef(parent, name), 0, 0)];
      }
    }

    /** `_apply_entry_to_balances`. */
    method ApplyEntry(lines: seq<DraftLine>)
      modifies this
      ensures nodes == ApplyLines(old(nodes), lines)
    {
      hide ApplyLines;
      ApplyNone(nodes, lines);
      for k := 0 to |lines|
        invariant nodes == ApplyLines(old(nodes), lines[..k])
      {
        ghost var before := nodes;
        var l := lines[k];
        ApplyOneMore(old(nodes), lines, k);
        var i := IndexOf(nodes, KeyOf(l.ref));
        if i == |nodes| {
          i := GetOrCreateVirtual(l.ref.parent, l.ref.name);
        }
        if l.side == Debit {
          nodes := nodes[i := nodes[i].(debit := nodes[i].debit + l.amount)];
        } else {
          nodes := nodes[i := nodes[i].(credit := nodes[i].credit + l.amount)];
        }
        assert nodes == ApplyLine(before, l);
      }
      assert lines[..|lines|] == lines;
    }
  }
}
