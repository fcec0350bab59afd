/** When two names are the same name, and what that means for the accounts they find. */
module Names {
  import opened Basics
  import opened Model
  import opened AccountResolution

  predicate White(c: char) {
    c == ' ' || c == '\t' || c == '\n' || c == '\U{0B}' || c == '\U{0C}' || c == '\r'
    || c == '\U{1C}' || c == '\U{1D}' || c == '\U{1E}' || c == '\U{1F}'
  }

  predicate AllWhite(s: string) { forall k :: 0 <= k < |s| ==> White(s[k]) }

  /** No white space at either end. */
  predicate Tight(s: string) { s != [] ==> !White(s[0]) && !White(s[|s| - 1]) }

  /** `t` is what `s` has between its first and its last character that is not white space. */
  ghost predicate Trims(s: string, t: string) {
    Tight(t) && exists i, j :: 0 <= i <= j <= |s| && t == s[i..j] && AllWhite(s[..i]) && AllWhite(s[j..])
  }

  /** One character, or the two cases of one ASCII letter. */
  predicate SameLetter(c: char, d: char) {
    c == d || ('A' <= c <= 'Z' && d as int == c as int + 32) || ('A' <= d <= 'Z' && c as int == d as int + 32)
  }

  predicate SameLetters(s: string, t: string) { |s| == |t| && forall k :: 0 <= k < |s| ==> SameLetter(s[k], t[k]) }

  /** Two spellings of one name: the same letters, but for case and for white space at the ends. */
  ghost predicate Variants(s: string, t: string) {
    exists u, v :: Trims(s, u) && Trims(t, v) && SameLetters(u, v)
  }

  // The same, by normal forms.

  lemma BlankIsWhite(c: char)
    ensures Blank(c) <==> White(c)
  {
  }

  lemma {:induction false} StripTrims(s: string)
    ensures Trims(s, Strip(s))
    decreases |s|
  {
    if s == [] {
      assert s == s[0..0] && AllWhite(s[..0]) && AllWhite(s[0..]);
    } else if Blank(s[0]) {
      BlankIsWhite(s[0]);
      StripTrims(s[1..]);
      var i, j :| 0 <= i <= j <= |s[1..]| && Strip(s[1..]) == s[1..][i..j] && AllWhite(s[1..][..i]) && AllWhite(s[1..][j..]);
      FrontWhite(s, i, j);
    } else if Blank(s[|s| - 1]) {
      var n := |s| - 1;
      BlankIsWhite(s[n]);
      StripTrims(s[..n]);
      var i, j :| 0 <= i <= j <= n && Strip(s[..n]) == s[..n][i..j] && AllWhite(s[..n][..i]) && AllWhite(s[..n][j..]);
      BackWhite(s, i, j);
    } else {
      BlankIsWhite(s[0]);
      BlankIsWhite(s[|s| - 1]);
      assert s == s[0..|s|] && AllWhite(s[..0]) && AllWhite(s[|s|..]);
    }
  }

  lemma FrontWhite(s: string, i: nat, j: nat)
    requires s != [] && White(s[0]) && i <= j <= |s| - 1
    requires AllWhite(s[1..][..i]) && AllWhite(s[1..][j..]) && Tight(s[1..][i..j])
    ensures Trims(s, s[1..][i..j])
  {
    assert s[1..][i..j] == s[i + 1..j + 1];
    assert s[..i + 1] == [s[0]] + s[1..][..i];
    assert s[j + 1..] == s[1..][j..];
  }

  lemma BackWhite(s: string, i: nat, j: nat)
    requires s != [] && White(s[|s| - 1]) && i <= j <= |s| - 1
    requires AllWhite(s[..|s| - 1][..i]) && AllWhite(s[..|s| - 1][j..]) && Tight(s[..|s| - 1][i..j])
    ensures Trims(s, s[..|s| - 1][i..j])
  {
    assert s[..|s| - 1][i..j] == s[i..j];
    assert s[..i] == s[..|s| - 1][..i];
    assert s[j..] == s[..|s| - 1][j..] + [s[|s| - 1]];
  }

  lemma WhiteBefore(s: string, i: nat, k: nat)
    requires k < i <= |s| && AllWhite(s[..i])
    ensures White(s[k])
  {
    assert s[..i][k] == s[k];
  }

  lemma WhiteAfter(s: string, j: nat, k: nat)
    requires j <= k < |s| && AllWhite(s[j..])
    ensures White(s[k])
  {
    assert s[j..][k - j] == s[k];
  }

  /** A character that is not white lies in what is trimmed. */
  lemma Inside(s: string, i: nat, j: nat, k: nat)
    requires i <= j <= |s| && k < |s| && AllWhite(s[..i]) && AllWhite(s[j..]) && !White(s[k])
    ensures i <= k < j
  {
    if k < i {
      WhiteBefore(s, i, k);
    }
    if k >= j {
      WhiteAfter(s, j, k);
    }
  }

  lemma SameRange(s: string, i: nat, j: nat, k: nat, l: nat)
    requires i <= j <= |s| && k <= l <= |s| && AllWhite(s[..k]) && AllWhite(s[l..]) && Tight(s[i..j])
    ensures i < j ==> k <= i && j <= l
  {
    if i < j {
      assert s[i..j][0] == s[i] && s[i..j][j - i - 1] == s[j - 1];
      Inside(s, k, l, i);
      Inside(s, k, l, j - 1);
    }
  }

  lemma TrimsOnce(s: string, t: string, u: string)
    requires Trims(s, t) && Trims(s, u)
    ensures t == u
  {
    var i: nat, j: nat :| i <= j <= |s| && t == s[i..j] && AllWhite(s[..i]) && AllWhite(s[j..]);
    var k: nat, l: nat :| k <= l <= |s| && u == s[k..l] && AllWhite(s[..k]) && AllWhite(s[l..]);
    hide *;
    SameRange(s, i, j, k, l);
    SameRange(s, k, l, i, j);
  }

  lemma StripIff(s: string, t: string)
    ensures Strip(s) == t <==> Trims(s, t)
  {
    StripTrims(s);
    if Trims(s, t) {
      TrimsOnce(s, t, Strip(s));
    }
  }

  /** A stripped name has nothing to strip. */
  lemma StripTwice(s: string)
    ensures Strip(Strip(s)) == Strip(s)
  {
    StripTrims(s);
    var t := Strip(s);
    assert t == t[0..|t|] && AllWhite(t[..0]) && AllWhite(t[|t|..]);
    StripIff(t, t);
  }

  lemma LowerIff(s: string, t: string)
    ensures Lower(s) == Lower(t) <==> SameLetters(s, t)
  {
    if Lower(s) == Lower(t) {
      assert |s| == |Lower(s)| == |t|;
      forall k | 0 <= k < |s| ensures SameLetter(s[k], t[k]) {
        assert Lower(s)[k] == Lower(t)[k];
      }
    }
    if SameLetters(s, t) {
      forall k | 0 <= k < |s| ensures Lower(s)[k] == Lower(t)[k] {
        assert SameLetter(s[k], t[k]);
      }
    }
  }

  /** Names are compared stripped and in lower case: exactly the variants of one name are alike. */
  lemma VariantsIff(s: string, t: string)
    ensures Variants(s, t) <==> Norm(s) == Norm(t)
  {
    StripTrims(s);
    StripTrims(t);
    LowerIff(Strip(s), Strip(t));
    if Variants(s, t) {
      var u, v :| Trims(s, u) && Trims(t, v) && SameLetters(u, v);
      TrimsOnce(s, u, Strip(s));
      TrimsOnce(t, v, Strip(t));
    }
  }

  // What the accounts found have to do with the names.

  /** Two specs of one account. */
  ghost predicate SameSpec(s: Spec, t: Spec) { s.parent == t.parent && Variants(s.name, t.name) }

  lemma SameSpecIff(s: Spec, t: Spec)
    ensures SameSpec(s, t) <==> KeyOfSpec(s) == KeyOfSpec(t)
  {
    VariantsIff(s.name, t.name);
  }

  /** A movement account of the company, under the colectiva of a spec and by a spelling of its name. */
  ghost predicate IsAccountOf(accounts: seq<Account>, id: AccountId, s: Spec) {
    id < |accounts| && accounts[id].Movement() && accounts[id].owner == ThisCompany
    && accounts[id].parent == s.parent && Variants(accounts[id].name, s.name)
  }

  lemma ServesIff(accounts: seq<Account>, id: AccountId, s: Spec)
    ensures Serves(accounts, id, KeyOfSpec(s)) <==> IsAccountOf(accounts, id, s)
  {
    if id < |accounts| {
      VariantsIff(accounts[id].name, s.name);
    }
  }

  /** The account an index gives for a spec. */
  function AccountFor(ids: Index, s: Spec): AccountId {
    if KeyOfSpec(s) in ids then ids[KeyOfSpec(s)] else 0
  }

  /** Resolution gives every spec an account of its colectiva and name, and two specs the same account exactly when they
      have one colectiva and spell one name. */
  lemma ResolvedAccounts(b: Books, specs: seq<Spec>, s: Spec, t: Spec)
    requires Resolve(b, specs).Ok? && s in specs && t in specs
    ensures var (after, ids) := Resolve(b, specs).value;
            && IsAccountOf(after.accounts, AccountFor(ids, s), s)
            && (AccountFor(ids, s) == AccountFor(ids, t) <==> SameSpec(s, t))
  {
    ResolveServes(b.accounts, specs);
    var (after, ids) := Resolve(b, specs).value;
    assert KeyOfSpec(s) in ids && KeyOfSpec(t) in ids;
    ServesIff(after.accounts, AccountFor(ids, s), s);
    SameSpecIff(s, t);
  }

  /** Once a name has been resolved, any spelling of it creates and links nothing and finds the same account; another
      name, or another colectiva, finds another account. */
  lemma VariantResolves(accounts: seq<Account>, s: Spec, t: Spec)
    requires ResolveOne(accounts, s).Ok?
    ensures var (after, id) := ResolveOne(accounts, s).value;
            && (SameSpec(s, t) ==> ResolveOne(after, t) == Ok((after, id)))
            && (!SameSpec(s, t) && ResolveOne(after, t).Ok? ==> ResolveOne(after, t).value.1 != id)
  {
    var (after, id) := ResolveOne(accounts, s).value;
    SameSpecIff(s, t);
    ResolveOneServes(accounts, s);
    ResolveOneNames(accounts, s);
    if SameSpec(s, t) {
      assert KeyOfSpec(t) in OwnedNames(after) && OwnedNames(after)[KeyOfSpec(t)] == id;
    } else if ResolveOne(after, t).Ok? {
      ResolveOneServes(after, t);
    }
  }

  // Which of several accounts of one name is found.

  /** An account under the colectiva of a spec and by a spelling of its name, whoever owns it. */
  ghost predicate Called(a: Account, s: Spec) { a.parent == s.parent && Variants(a.name, s.name) }

  /** The last account of the company, or of anyone, that is called like the spec. */
  ghost predicate LastOwned(accounts: seq<Account>, s: Spec, id: AccountId) {
    && id < |accounts| && accounts[id].owner == ThisCompany && Called(accounts[id], s)
    && forall k :: id < k < |accounts| && accounts[k].owner == ThisCompany ==> !Called(accounts[k], s)
  }

  ghost predicate LastCalled(accounts: seq<Account>, s: Spec, id: AccountId) {
    id < |accounts| && Called(accounts[id], s) && forall k :: id < k < |accounts| ==> !Called(accounts[k], s)
  }

  lemma CalledIff(a: Account, s: Spec)
    ensures Called(a, s) <==> KeyOfAccount(a) == KeyOfSpec(s)
  {
    VariantsIff(a.name, s.name);
  }

  lemma {:induction false} OwnedIsLast(accounts: seq<Account>, key: NameKey)
    ensures key in OwnedNames(accounts) ==>
              forall k :: OwnedNames(accounts)[key] < k < |accounts| && accounts[k].owner == ThisCompany ==>
                KeyOfAccount(accounts[k]) != key
  {
    if accounts != [] {
      OwnedIsLast(accounts[..|accounts| - 1], key);
    }
  }

  lemma {:induction false} CalledIsLast(accounts: seq<Account>, key: NameKey)
    ensures key in AllNames(accounts) ==>
              forall k :: AllNames(accounts)[key] < k < |accounts| ==> KeyOfAccount(accounts[k]) != key
  {
    if accounts != [] {
      CalledIsLast(accounts[..|accounts| - 1], key);
    }
  }

  lemma LastOwnedIff(accounts: seq<Account>, s: Spec, id: AccountId)
    ensures LastOwned(accounts, s, id) <==> KeyOfSpec(s) in OwnedNames(accounts) && OwnedNames(accounts)[KeyOfSpec(s)] == id
  {
    OwnedNamesSound(accounts, KeyOfSpec(s));
    OwnedIsLast(accounts, KeyOfSpec(s));
    forall k: nat | k < |accounts| ensures Called(accounts[k], s) <==> KeyOfAccount(accounts[k]) == KeyOfSpec(s) {
      CalledIff(accounts[k], s);
    }
  }

  lemma LastCalledIff(accounts: seq<Account>, s: Spec, id: AccountId)
    ensures LastCalled(accounts, s, id) <==> KeyOfSpec(s) in AllNames(accounts) && AllNames(accounts)[KeyOfSpec(s)] == id
  {
    AllNamesSound(accounts, KeyOfSpec(s));
    CalledIsLast(accounts, KeyOfSpec(s));
    forall k: nat | k < |accounts| ensures Called(accounts[k], s) <==> KeyOfAccount(accounts[k]) == KeyOfSpec(s) {
      CalledIff(accounts[k], s);
    }
  }

  ghost predicate OwnsNone(accounts: seq<Account>, s: Spec) {
    forall a :: a in accounts && a.owner == ThisCompany ==> !Called(a, s)
  }

  lemma NoneOwned(accounts: seq<Account>, s: Spec)
    requires OwnsNone(accounts, s)
    ensures KeyOfSpec(s) !in OwnedNames(accounts)
  {
    OwnedNamesSound(accounts, KeyOfSpec(s));
    if KeyOfSpec(s) in OwnedNames(accounts) {
      CalledIff(accounts[OwnedNames(accounts)[KeyOfSpec(s)]], s);
    }
  }

  /** One more account of the company at the end of the table, a leaf of level 2 with the least free code of 1 to 99; or
      the error that there is none. */
  ghost predicate Creates(accounts: seq<Account>, s: Spec, r: Result<(seq<Account>, AccountId)>) {
    match r
    case Ok((after, id)) =>
      && id == |accounts| && |after| == id + 1
      && after == accounts + [Account(s.parent, after[id].suffix, s.name, 2, true, ThisCompany)]
      && 1 <= after[id].suffix <= 99 && !Used(accounts, s.parent, after[id].suffix)
      && forall k :: 1 <= k < after[id].suffix ==> Used(accounts, s.parent, k)
    case Err(error) => error == CodesExhausted && forall k :: 1 <= k <= 99 ==> Used(accounts, s.parent, k)
  }

  predicate Used(accounts: seq<Account>, parent: Code, suffix: nat) {
    exists i :: 0 <= i < |accounts| && accounts[i].parent == parent && accounts[i].suffix == suffix
  }

  /** A spec is resolved to the company's account of its name, the last of several. */
  lemma FindsOwned(accounts: seq<Account>, s: Spec, id: AccountId)
    requires LastOwned(accounts, s, id)
    ensures ResolveOne(accounts, s) == if accounts[id].Movement() then Ok((accounts, id)) else Err(NotMovement)
  {
    LastOwnedIff(accounts, s, id);
  }

  /** If it has none, the last account of that name is taken on when nobody owns it. */
  lemma TakesOn(accounts: seq<Account>, s: Spec, id: AccountId)
    requires OwnsNone(accounts, s) && LastCalled(accounts, s, id) && accounts[id].owner == Unlinked
    ensures ResolveOne(accounts, s) == if accounts[id].Movement()
                                       then Ok((accounts[id := accounts[id].(owner := ThisCompany)], id))
                                       else Err(NotMovement)
  {
    NoneOwned(accounts, s);
    LastCalledIff(accounts, s, id);
  }

  /** Otherwise an account of that name is created. */
  lemma CreatesNew(accounts: seq<Account>, s: Spec)
    requires OwnsNone(accounts, s) && forall id: AccountId :: LastCalled(accounts, s, id) ==> accounts[id].owner != Unlinked
    ensures Creates(accounts, s, ResolveOne(accounts, s))
  {
    NoneOwned(accounts, s);
    AllNamesSound(accounts, KeyOfSpec(s));
    if KeyOfSpec(s) in AllNames(accounts) {
      LastCalledIff(accounts, s, AllNames(accounts)[KeyOfSpec(s)]);
    }
    UsedIffTaken(accounts, s.parent);
  }

  lemma UsedIffTaken(accounts: seq<Account>, parent: Code)
    ensures forall k :: Used(accounts, parent, k) <==> Taken(accounts, parent, k)
  {
    forall k: nat | Taken(accounts, parent, k) ensures Used(accounts, parent, k) {
      var a :| a in accounts && a.parent == parent && a.suffix == k;
      var i :| 0 <= i < |accounts| && accounts[i] == a;
    }
  }

  /** Instance: " caja " spells "Caja", and "Cajas" does not. */
  lemma CajaSpelled()
    ensures Variants("Caja", " caja ") && !Variants("Caja", "Cajas")
  {
    assert " caja "[1..5] == "caja" && " caja "[..1] == " " && " caja "[5..] == " ";
    assert Trims(" caja ", "caja");
    assert "Caja"[0..4] == "Caja" && "Caja"[..0] == "" && "Caja"[4..] == "";
    assert Trims("Caja", "Caja");
    assert SameLetters("Caja", "caja");
    assert "Cajas"[0..5] == "Cajas" && "Cajas"[..0] == "" && "Cajas"[5..] == "";
    assert Trims("Cajas", "Cajas");
    StripIff("Caja", "Caja");
    StripIff("Cajas", "Cajas");
    VariantsIff("Caja", "Cajas");
    LowerIff("Caja", "Cajas");
  }

  /** So a company that owns "Caja" under 1.01 gets that account for " caja ", and nothing is created. */
  lemma CajaFound()
    ensures var accounts := [Account(Code(1, 1), 1, "Caja", 2, true, ThisCompany)];
            ResolveOne(accounts, Spec(Code(1, 1), " caja ")) == Ok((accounts, 0))
  {
    var a := Account(Code(1, 1), 1, "Caja", 2, true, ThisCompany);
    CajaSpelled();
    VariantsIff("Caja", " caja ");
    assert [a][..0] == [];
    assert OwnedNames([a]) == map[KeyOfAccount(a) := 0];
  }
}
