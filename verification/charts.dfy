/** The chart-of-accounts validator: the ancestor walk and the collection rules around it. */
module Charts {
  import opened Text
  import opened Model
  import opened Sorting

  // ---------- Parent chains ----------

  ghost predicate EndsAtRoot(parents: ParentMap, code: string) {
    exists n: nat :: Ancestor(parents, code, n).None?
  }

  predicate Distinct<T(==)>(s: seq<T>) {
    forall i, j | 0 <= i < j < |s| :: s[i] != s[j]
  }

  /** A closed list of parent links above `code`, its nodes distinct apart from the two ends. */
  ghost predicate IsCycle(parents: ParentMap, code: string, cycle: seq<string>) {
    && |cycle| >= 2
    && cycle[0] == cycle[|cycle| - 1]
    && (forall i | 0 <= i < |cycle| - 1 :: Parent(parents, cycle[i]) == Some(cycle[i + 1]))
    && Distinct(cycle[..|cycle| - 1])
    && exists k: nat :: Ancestor(parents, code, k) == Some(cycle[0])
  }

  lemma {:induction false} EndedStaysEnded(parents: ParentMap, code: string, n: nat, m: nat)
    requires n <= m && Ancestor(parents, code, n).None?
    ensures Ancestor(parents, code, m).None?
  {
    if n < m { EndedStaysEnded(parents, code, n, m - 1); }
  }

  lemma {:induction false} SameAncestorsAhead(parents: ParentMap, code: string, a: nat, b: nat, t: nat)
    requires Ancestor(parents, code, a) == Ancestor(parents, code, b)
    ensures Ancestor(parents, code, a + t) == Ancestor(parents, code, b + t)
  {
    if t > 0 { SameAncestorsAhead(parents, code, a, b, t - 1); }
  }

  /** A chain that meets one code twice never ends. */
  lemma {:induction false} RepeatNeverEnds(parents: ParentMap, code: string, a: nat, b: nat, n: nat)
    requires a < b && Ancestor(parents, code, a).Some?
    requires Ancestor(parents, code, a) == Ancestor(parents, code, b)
    ensures Ancestor(parents, code, n).Some?
    decreases n
  {
    if n <= b {
      if Ancestor(parents, code, n).None? { EndedStaysEnded(parents, code, n, b); }
    } else {
      SameAncestorsAhead(parents, code, a, b, n - b);
      RepeatNeverEnds(parents, code, a, b, a + (n - b));
    }
  }

  lemma {:induction false} Pigeonhole(s: seq<string>, holes: set<string>) returns (i: nat, j: nat)
    requires |s| > |holes|
    requires forall k | 0 <= k < |s| :: s[k] in holes
    ensures i < j < |s| && s[i] == s[j]
  {
    var last := s[|s| - 1];
    if k :| 0 <= k < |s| - 1 && s[k] == last {
      i, j := k, |s| - 1;
    } else {
      i, j := Pigeonhole(s[..|s| - 1], holes - {last});
    }
  }

  /** With every parent on file, a chain that ends does so within as many steps as there are accounts. */
  lemma EndsWithinSize(parents: ParentMap, code: string)
    requires code in parents && forall c | c in parents && parents[c].Some? :: parents[c].value in parents
    requires EndsAtRoot(parents, code)
    ensures Ancestor(parents, code, |parents|).None?
  {
    var size := |parents|;
    if Ancestor(parents, code, size).Some? {
      forall i: nat | i <= size
        ensures Ancestor(parents, code, i).Some? && Ancestor(parents, code, i).value in parents
      {
        AncestorsOnFile(parents, code, i, size);
      }
      var chain := seq(size + 1, i requires 0 <= i <= size => Ancestor(parents, code, i).value);
      assert |parents.Keys| == size;
      var i, j := Pigeonhole(chain, parents.Keys);
      var n: nat :| Ancestor(parents, code, n).None?;
      RepeatNeverEnds(parents, code, i, j, n);
    }
  }

  lemma {:induction false} AncestorsOnFile(parents: ParentMap, code: string, i: nat, n: nat)
    requires code in parents && forall c | c in parents && parents[c].Some? :: parents[c].value in parents
    requires i <= n && Ancestor(parents, code, n).Some?
    ensures Ancestor(parents, code, i).Some? && Ancestor(parents, code, i).value in parents
  {
    if Ancestor(parents, code, i).None? { EndedStaysEnded(parents, code, i, n); }
    if i > 0 { AncestorsOnFile(parents, code, i - 1, n); }
  }

  // ---------- The walk ----------

  /** The codes visited so far are the first ancestors, none of them twice. */
  ghost predicate Walked(parents: ParentMap, code: string, path: seq<string>) {
    Distinct(path) && forall i | 0 <= i < |path| :: Ancestor(parents, code, i) == Some(path[i])
  }

  lemma ClosedWalk(parents: ParentMap, code: string, path: seq<string>, start: nat)
    requires Walked(parents, code, path) && start < |path|
    requires Ancestor(parents, code, |path|) == Some(path[start])
    ensures IsCycle(parents, code, path[start..] + [path[start]])
    ensures !EndsAtRoot(parents, code)
  {
    var closed := path[start..] + [path[start]];
    forall i | 0 <= i < |closed| - 1
      ensures Parent(parents, closed[i]) == Some(closed[i + 1])
    {
      assert Ancestor(parents, code, start + i + 1) == Parent(parents, path[start + i]);
    }
    assert closed[..|closed| - 1] == path[start..];
    assert Ancestor(parents, code, start) == Some(closed[0]);
    forall n: nat ensures Ancestor(parents, code, n).Some? {
      RepeatNeverEnds(parents, code, start, |path|, n);
    }
  }

  lemma WalkStart(parents: ParentMap, code: string)
    ensures Walked(parents, code, []) && Ancestor(parents, code, 0) == Some(code)
  {}

  lemma WalkStep(parents: ParentMap, code: string, path: seq<string>, c: string)
    requires Walked(parents, code, path) && Ancestor(parents, code, |path|) == Some(c) && c !in path
    ensures Walked(parents, code, path + [c])
    ensures Ancestor(parents, code, |path + [c]|) == Parent(parents, c)
  {
    assert Ancestor(parents, code, |path| + 1) == Parent(parents, c);
  }

  lemma WalkEnds(parents: ParentMap, code: string, n: nat)
    requires Ancestor(parents, code, n).None?
    ensures EndsAtRoot(parents, code)
  {}

  /** `path.index(code)`. */
  function IndexOf(path: seq<string>, code: string): (i: nat)
    requires code in path
    ensures i < |path| && path[i] == code && code !in path[..i]
  {
    if path[0] == code then 0
    else
      var i := 1 + IndexOf(path[1..], code);
      assert path[..i] == [path[0]] + path[1..][..i - 1];
      i
  }

  /** Walks up from `code`: None when the chain ends at a root, else the cycle it runs into. */
  method FindAccountCycle(code: string, parents: ParentMap) returns (cycle: Option<seq<string>>)
    ensures cycle.None? <==> EndsAtRoot(parents, code)
    ensures cycle.Some? ==> IsCycle(parents, code, cycle.value)
  {
    hide Ancestor, Walked, EndsAtRoot, IsCycle;
    WalkStart(parents, code);
    var path: seq<string> := [];
    var seen: set<string> := {};
    var current := Some(code);
    while current.Some?
      invariant Walked(parents, code, path)
      invariant Ancestor(parents, code, |path|) == current
      invariant forall c :: c in seen <==> c in path
      decreases |parents.Keys - seen| + if current.Some? then 1 else 0
    {
      var c := current.value;
      if c in seen {
        var idx := IndexOf(path, c);
        ClosedWalk(parents, code, path, idx);
        return Some(path[idx..] + [c]);
      }
      assert parents.Keys - (seen + {c}) == (parents.Keys - seen) - {c};
      WalkStep(parents, code, path, c);
      seen := seen + {c};
      path := path + [c];
      current := Parent(parents, c);
    }
    WalkEnds(parents, code, |path|);
    return None;
  }

  // ---------- The collection ----------

  lemma {:induction false} ParentsOfKeys(accounts: seq<Account>)
    ensures ParentsOf(accounts).Keys == Codes(accounts)
  {
    if accounts != [] {
      var n := |accounts| - 1;
      ParentsOfKeys(accounts[..n]);
      assert accounts == accounts[..n] + [accounts[n]];
    }
  }

  lemma {:induction false} ParentsOfLookup(accounts: seq<Account>, i: nat)
    requires UniqueCodes(accounts) && i < |accounts|
    ensures accounts[i].code in ParentsOf(accounts)
    ensures ParentsOf(accounts)[accounts[i].code] == accounts[i].parentCode
  {
    var n := |accounts| - 1;
    if i < n {
      ParentsOfLookup(accounts[..n], i);
      assert accounts[i].code != accounts[n].code;
    }
  }

  lemma {:induction false} ParentsOfSize(accounts: seq<Account>)
    requires UniqueCodes(accounts)
    ensures |ParentsOf(accounts)| == |accounts|
  {
    if accounts != [] {
      var n := |accounts| - 1;
      ParentsOfSize(accounts[..n]);
      ParentsOfKeys(accounts[..n]);
      assert accounts[n].code !in Codes(accounts[..n]);
    }
  }

  lemma ParentsOfUnique(accounts: seq<Account>)
    requires UniqueCodes(accounts)
    ensures ParentsOf(accounts).Keys == Codes(accounts)
    ensures |ParentsOf(accounts)| == |accounts|
    ensures forall i | 0 <= i < |accounts| :: ParentsOf(accounts)[accounts[i].code] == accounts[i].parentCode
  {
    ParentsOfKeys(accounts);
    ParentsOfSize(accounts);
    forall i | 0 <= i < |accounts| ensures ParentsOf(accounts)[accounts[i].code] == accounts[i].parentCode {
      ParentsOfLookup(accounts, i);
    }
  }

  lemma ParentsStayOnFile(accounts: seq<Account>)
    requires UniqueCodes(accounts) && ParentsExist(accounts)
    ensures var parents := ParentsOf(accounts);
            forall c | c in parents && parents[c].Some? :: parents[c].value in parents
  {
    ParentsOfUnique(accounts);
  }

  datatype ChartVerdict =
    | Accepted
    | DuplicateCode(code: string)
    | MissingParent(code: string, parent: string)
    | ChartCycle(path: seq<string>)

  /** `code` is the first one met a second time. */
  ghost predicate FirstRepeat(accounts: seq<Account>, code: string) {
    exists j | 0 <= j < |accounts| ::
      accounts[j].code == code && UniqueCodes(accounts[..j]) && code in Codes(accounts[..j])
  }

  /** The first loop: codes and parent links, up to the first repeated code. */
  method CollectCodes(accounts: seq<Account>)
    returns (seenCodes: set<string>, parents: ParentMap, repeated: Option<string>)
    ensures repeated.None? ==>
              UniqueCodes(accounts) && seenCodes == Codes(accounts) && parents == ParentsOf(accounts)
    ensures repeated.Some? ==>
              FirstRepeat(accounts, repeated.value) && !UniqueCodes(accounts)
  {
    seenCodes, parents := {}, map[];
    for i := 0 to |accounts|
      invariant seenCodes == Codes(accounts[..i]) && parents == ParentsOf(accounts[..i])
      invariant UniqueCodes(accounts[..i])
    {
      assert accounts[..i + 1][..i] == accounts[..i];
      if accounts[i].code in seenCodes {
        var k :| 0 <= k < |accounts[..i]| && accounts[..i][k].code == accounts[i].code;
        assert accounts[k].code == accounts[i].code;
        return seenCodes, parents, Some(accounts[i].code);
      }
      seenCodes := seenCodes + {accounts[i].code};
      parents := parents[accounts[i].code := accounts[i].parentCode];
    }
    assert accounts[..|accounts|] == accounts;
    repeated := None;
  }

  /** The last loop: start codes come in no particular order. */
  method SearchCycles(codes: set<string>, parents: ParentMap) returns (cycle: Option<seq<string>>)
    ensures cycle.None? <==> forall c | c in codes :: EndsAtRoot(parents, c)
    ensures cycle.Some? ==> exists c | c in codes :: IsCycle(parents, c, cycle.value)
  {
    var todo := codes;
    while todo != {}
      invariant todo <= codes
      invariant forall c | c in codes - todo :: EndsAtRoot(parents, c)
      decreases todo
    {
      var code :| code in todo;
      cycle := FindAccountCycle(code, parents);
      if cycle.Some? {
        return;
      }
      todo := todo - {code};
    }
    cycle := None;
  }

  /** Accepts exactly the well-formed charts; otherwise names the first rule broken. */
  method ValidateAccountCollection(accounts: seq<Account>) returns (verdict: ChartVerdict)
    ensures verdict.Accepted? <==> ChartOk(accounts)
    ensures verdict.DuplicateCode? <==> !UniqueCodes(accounts)
    ensures verdict.DuplicateCode? ==>
              FirstRepeat(accounts, verdict.code)
    ensures verdict.MissingParent? <==> UniqueCodes(accounts) && !ParentsExist(accounts)
    ensures verdict.MissingParent? ==>
              exists i | 0 <= i < |accounts| ::
                && accounts[i].code == verdict.code && accounts[i].parentCode == Some(verdict.parent)
                && verdict.parent !in Codes(accounts)
                && forall k | 0 <= k < i && accounts[k].parentCode.Some? :: accounts[k].parentCode.value in Codes(accounts)
    ensures verdict.ChartCycle? ==>
              exists code | code in Codes(accounts) :: IsCycle(ParentsOf(accounts), code, verdict.path)
  {
    hide ChartOk, UniqueCodes, ParentsOf, Ancestor, EndsAtRoot, IsCycle;
    var seenCodes, parents, repeated := CollectCodes(accounts);
    if repeated.Some? {
      ChartOkMeans(accounts);
      return DuplicateCode(repeated.value);
    }
    ChartOkMeans(accounts);
    for i := 0 to |accounts|
      invariant forall k | 0 <= k < i && accounts[k].parentCode.Some? :: accounts[k].parentCode.value in seenCodes
    {
      if accounts[i].parentCode.Some? && accounts[i].parentCode.value !in seenCodes {
        return MissingParent(accounts[i].code, accounts[i].parentCode.value);
      }
    }
    var cycle := SearchCycles(seenCodes, parents);
    verdict := if cycle.Some? then ChartCycle(cycle.value) else Accepted;
  }

  /** A chart is accepted exactly when its codes are unique, its parents exist and every account's
      chain of parents ends. */
  lemma ChartOkMeans(accounts: seq<Account>)
    ensures ChartOk(accounts) <==>
              && UniqueCodes(accounts) && ParentsExist(accounts)
              && forall c | c in Codes(accounts) :: EndsAtRoot(ParentsOf(accounts), c)
  {
    if UniqueCodes(accounts) && ParentsExist(accounts) {
      ParentsOfUnique(accounts);
      ParentsStayOnFile(accounts);
      forall c | c in Codes(accounts) && ChartOk(accounts) ensures EndsAtRoot(ParentsOf(accounts), c) {
        var i :| 0 <= i < |accounts| && accounts[i].code == c;
      }
      if forall c | c in Codes(accounts) :: EndsAtRoot(ParentsOf(accounts), c) {
        forall i | 0 <= i < |accounts| ensures Ancestor(ParentsOf(accounts), accounts[i].code, |accounts|).None? {
          EndsWithinSize(ParentsOf(accounts), accounts[i].code);
        }
      }
    }
  }

  // ---------- Order does not matter ----------

  predicate DifferentCodes(a: Account, b: Account) { a.code != b.code }

  lemma UniqueIsPairwise(accounts: seq<Account>)
    ensures UniqueCodes(accounts) <==> Pairwise(accounts, DifferentCodes)
  {}

  lemma ParentsPermuted(a: seq<Account>, b: seq<Account>)
    requires multiset(a) == multiset(b) && UniqueCodes(a) && UniqueCodes(b)
    ensures ParentsOf(a) == ParentsOf(b)
  {
    SameElements(a, b);
    ParentsOfKeys(a);
    ParentsOfKeys(b);
    forall c | c in Codes(a) ensures ParentsOf(a)[c] == ParentsOf(b)[c] {
      var i :| 0 <= i < |a| && a[i].code == c;
      assert a[i] in b;
      var j :| 0 <= j < |b| && b[j] == a[i];
      ParentsOfLookup(a, i);
      ParentsOfLookup(b, j);
    }
  }

  lemma ChartPermuted(a: seq<Account>, b: seq<Account>)
    requires multiset(a) == multiset(b)
    ensures Codes(a) == Codes(b)
    ensures ChartOk(a) ==> ChartOk(b)
  {
    SameElements(a, b);
    if ChartOk(a) {
      UniqueIsPairwise(a);
      UniqueIsPairwise(b);
      PairwisePermuted(a, b, DifferentCodes);
      ParentsPermuted(a, b);
      forall i | 0 <= i < |b| ensures b[i] in a { assert b[i] in b; }
    }
  }
}
