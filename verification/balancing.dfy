/** Per-currency totals and the balance check on a transaction's entries. */
module Balancing {
  import opened Text
  import opened Decimals
  import opened Model
  import opened Sorting

  /** Does the filter `side` let the entry through? */
  predicate Counts(e: LedgerEntry, side: Option<PostingSide>) {
    side.None? || e.side == side.value
  }

  function TotalOn(entries: seq<LedgerEntry>, side: Option<PostingSide>, currency: string): real {
    if side.Some? then Total(entries, side.value, currency)
    else Total(entries, Debit, currency) + Total(entries, Credit, currency)
  }

  /** Debits less credits. */
  function Net(entries: seq<LedgerEntry>, currency: string): real {
    Total(entries, Debit, currency) - Total(entries, Credit, currency)
  }

  function GetOrZero(totals: map<string, real>, currency: string): real {
    if currency in totals then totals[currency] else 0.0
  }

  lemma TotalAppend(entries: seq<LedgerEntry>, e: LedgerEntry, side: PostingSide, currency: string)
    ensures Total(entries + [e], side, currency)
         == Total(entries, side, currency) + (if e.side == side && e.currency == currency then Value(e.amount) else 0.0)
  {
    assert (entries + [e])[..|entries|] == entries;
  }

  lemma TotalOnAppend(entries: seq<LedgerEntry>, e: LedgerEntry, side: Option<PostingSide>, currency: string)
    ensures TotalOn(entries + [e], side, currency)
         == TotalOn(entries, side, currency) + (if Counts(e, side) && e.currency == currency then Value(e.amount) else 0.0)
  {
    TotalAppend(entries, e, Debit, currency);
    TotalAppend(entries, e, Credit, currency);
  }

  ghost predicate Tallied(totals: map<string, real>, entries: seq<LedgerEntry>, side: Option<PostingSide>) {
    forall c :: GetOrZero(totals, c) == TotalOn(entries, side, c)
  }

  lemma TalliedStep(totals: map<string, real>, entries: seq<LedgerEntry>, e: LedgerEntry, side: Option<PostingSide>)
    requires Tallied(totals, entries, side)
    ensures Counts(e, side) ==>
              Tallied(totals[e.currency := GetOrZero(totals, e.currency) + Value(e.amount)], entries + [e], side)
    ensures !Counts(e, side) ==> Tallied(totals, entries + [e], side)
  {
    forall c
      ensures TotalOn(entries + [e], side, c)
           == GetOrZero(totals, c) + (if Counts(e, side) && e.currency == c then Value(e.amount) else 0.0)
    {
      TotalOnAppend(entries, e, side, c);
      assert GetOrZero(totals, c) == TotalOn(entries, side, c);
    }
  }

  /** The accumulation loop holds, for every currency it met, the sum of the entries the filter lets
      through, and no other currency. */
  method TotalsByCurrency(entries: seq<LedgerEntry>, side: Option<PostingSide>) returns (totals: map<string, real>)
    ensures totals.Keys == set e | e in entries && Counts(e, side) :: e.currency
    ensures Tallied(totals, entries, side)
  {
    totals := map[];
    for i := 0 to |entries|
      invariant totals.Keys == set e | e in entries[..i] && Counts(e, side) :: e.currency
      invariant Tallied(totals, entries[..i], side)
    {
      var e := entries[i];
      assert entries[..i + 1] == entries[..i] + [e];
      TalliedStep(totals, entries[..i], e, side);
      if Counts(e, side) {
        totals := totals[e.currency := GetOrZero(totals, e.currency) + Value(e.amount)];
      }
    }
    assert entries[..|entries|] == entries;
  }

  lemma {:induction false} NoTotalElsewhere(entries: seq<LedgerEntry>, side: PostingSide, currency: string)
    requires currency !in Currencies(entries)
    ensures Total(entries, side, currency) == 0.0
  {
    if entries != [] {
      var n := |entries| - 1;
      assert entries[n] in entries;
      assert forall e | e in entries[..n] :: e in entries;
      NoTotalElsewhere(entries[..n], side, currency);
    }
  }

  /** Accepted entries are those with at least two lines and a zero signed sum in every currency. */
  lemma EntriesOkMeans(entries: seq<LedgerEntry>)
    ensures EntriesOk(entries) <==> |entries| >= 2 && forall c :: Net(entries, c) == 0.0
  {
    forall c | c !in Currencies(entries) ensures Net(entries, c) == 0.0 {
      NoTotalElsewhere(entries, Debit, c);
      NoTotalElsewhere(entries, Credit, c);
    }
    if forall c :: Net(entries, c) == 0.0 {
      forall c | c in Currencies(entries) ensures Total(entries, Debit, c) == Total(entries, Credit, c) {
        assert Net(entries, c) == 0.0;
      }
    }
  }

  // ---------- The check ----------

  datatype BalanceVerdict = Balanced | TooFew | Mismatched(currencies: seq<string>)

  ghost predicate Ascending(s: seq<string>) {
    forall i, j | 0 <= i < j < |s| :: TextLt(s[i], s[j])
  }

  lemma TextLeIsTotalOrder()
    ensures TotalOrder(TextLe)
  {
    forall a, b ensures TextLe(a, b) || TextLe(b, a) { TextLeTotal(a, b); }
    forall a, b, c | TextLe(a, b) && TextLe(b, c) ensures TextLe(a, c) { TextLeTransitive(a, b, c); }
  }

  /** `sorted` on a set of texts. */
  method SortedTexts(texts: set<string>) returns (sorted: seq<string>)
    ensures Ascending(sorted)
    ensures forall c :: c in sorted <==> c in texts
  {
    var todo := texts;
    var list: seq<string> := [];
    while todo != {}
      invariant todo <= texts
      invariant forall c :: c in list <==> c in texts - todo
      invariant forall i, j | 0 <= i < j < |list| :: list[i] != list[j]
      decreases todo
    {
      var c :| c in todo;
      todo := todo - {c};
      list := list + [c];
    }
    sorted := Sort(list, TextLe);
    TextLeIsTotalOrder();
    SortSorted(list, TextLe);
    SameElements(list, sorted);
    assert Pairwise(list, (a, b) => a != b);
    PairwisePermuted(list, sorted, (a, b) => a != b);
  }

  /** Accepts exactly the balanced entry lists and otherwise names, in ascending order, the
      currencies whose signed sum is not zero. */
  method ValidateTransactionEntries(entries: seq<LedgerEntry>) returns (verdict: BalanceVerdict)
    ensures verdict.Balanced? <==> EntriesOk(entries)
    ensures verdict.TooFew? <==> |entries| < 2
    ensures verdict.Mismatched? ==>
              && Ascending(verdict.currencies)
              && forall c :: c in verdict.currencies <==> Net(entries, c) != 0.0
  {
    hide EntriesOk, Total, Currencies, Sort, TextLe, Ascending, Net, Tallied;
    if |entries| < 2 {
      EntriesOkMeans(entries);
      return TooFew;
    }
    var debits := TotalsByCurrency(entries, Some(Debit));
    var credits := TotalsByCurrency(entries, Some(Credit));
    var currencies := SortedTexts(debits.Keys + credits.Keys);
    var mismatched: seq<string> := [];
    NothingYet();
    for i := 0 to |currencies|
      invariant forall c :: c in mismatched <==> c in currencies[..i] && Net(entries, c) != 0.0
      invariant Ascending(mismatched)
    {
      var c := currencies[i];
      assert currencies[..i + 1] == currencies[..i] + [c];
      NetTallied(entries, debits, credits, c);
      if GetOrZero(debits, c) != GetOrZero(credits, c) {
        AscendingNext(currencies, i, mismatched);
        mismatched := mismatched + [c];
      }
    }
    assert currencies[..|currencies|] == currencies;
    EntriesOkMeans(entries);
    forall c | c !in currencies ensures Net(entries, c) == 0.0 {
      NetTallied(entries, debits, credits, c);
    }
    if mismatched == [] {
      verdict := Balanced;
    } else {
      assert mismatched[0] in mismatched;
      verdict := Mismatched(mismatched);
    }
  }

  lemma NothingYet()
    ensures Ascending([])
  {}

  lemma NetTallied(entries: seq<LedgerEntry>, debits: map<string, real>, credits: map<string, real>, currency: string)
    requires Tallied(debits, entries, Some(Debit)) && Tallied(credits, entries, Some(Credit))
    ensures Net(entries, currency) == GetOrZero(debits, currency) - GetOrZero(credits, currency)
  {
    hide GetOrZero, Total;
    assert GetOrZero(debits, currency) == TotalOn(entries, Some(Debit), currency);
  }

  /** A selection from an ascending list stays ascending with the list's next element. */
  lemma AscendingNext(s: seq<string>, i: nat, selected: seq<string>)
    requires Ascending(s) && i < |s| && Ascending(selected) && forall c | c in selected :: c in s[..i]
    ensures Ascending(selected + [s[i]])
  {
    hide TextLt;
    assert forall k | 0 <= k < |selected| :: selected[k] in s[..i];
  }

  // ---------- Order does not matter ----------

  lemma {:induction false} TotalConcat(a: seq<LedgerEntry>, b: seq<LedgerEntry>, side: PostingSide, currency: string)
    ensures Total(a + b, side, currency) == Total(a, side, currency) + Total(b, side, currency)
  {
    if b == [] {
      assert a + b == a;
    } else {
      var n := |b| - 1;
      TotalConcat(a, b[..n], side, currency);
      assert (a + b)[..|a + b| - 1] == a + b[..n];
    }
  }

  lemma TotalWithout(s: seq<LedgerEntry>, k: nat, side: PostingSide, currency: string)
    requires k < |s|
    ensures Total(s, side, currency)
         == Total(s[..k] + s[k + 1..], side, currency)
          + (if s[k].side == side && s[k].currency == currency then Value(s[k].amount) else 0.0)
  {
    assert s == (s[..k] + [s[k]]) + s[k + 1..];
    TotalConcat(s[..k] + [s[k]], s[k + 1..], side, currency);
    TotalConcat(s[..k], s[k + 1..], side, currency);
    TotalAppend(s[..k], s[k], side, currency);
  }

  /** The total depends on which entries there are, not on their order. */
  lemma {:induction false} TotalPermuted(a: seq<LedgerEntry>, b: seq<LedgerEntry>, side: PostingSide, currency: string)
    requires multiset(a) == multiset(b)
    ensures Total(a, side, currency) == Total(b, side, currency)
    decreases |a|
  {
    SameElements(a, b);
    if a != [] {
      var k := RemoveBoth(a, b);
      TotalPermuted(a[..|a| - 1], b[..k] + b[k + 1..], side, currency);
      TotalWithout(b, k, side, currency);
    }
  }

  lemma BalancePermuted(a: seq<LedgerEntry>, b: seq<LedgerEntry>)
    requires multiset(a) == multiset(b)
    ensures EntriesOk(a) <==> EntriesOk(b)
  {
    SameElements(a, b);
    EntriesOkMeans(a);
    EntriesOkMeans(b);
    forall c ensures Net(a, c) == Net(b, c) {
      TotalPermuted(a, b, Debit, c);
      TotalPermuted(a, b, Credit, c);
    }
  }

  // ---------- Whole books ----------

  /** Debits less credits over a list of transactions. */
  function BookNet(transactions: seq<JournalTransaction>, currency: string): real {
    if transactions == [] then 0.0
    else
      var n := |transactions| - 1;
      BookNet(transactions[..n], currency) + Net(transactions[n].entries, currency)
  }

  /** A book of posted transactions has equal debits and credits in every currency. */
  lemma {:induction false} BookBalanced(iso: Iso4217, transactions: seq<JournalTransaction>, currency: string)
    requires forall i | 0 <= i < |transactions| :: TransactionOk(iso, transactions[i]) && transactions[i].state == Posted
    ensures BookNet(transactions, currency) == 0.0
  {
    if transactions != [] {
      var n := |transactions| - 1;
      BookBalanced(iso, transactions[..n], currency);
      EntriesOkMeans(transactions[n].entries);
    }
  }
}
