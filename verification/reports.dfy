/** Validation that reports findings instead of raising: transactions and books, and currency conversions. */
module Reports {
  import opened Text
  import opened Decimals
  import opened Model
  import opened Rounding
  import Balancing
  import Charts

  // ---------- Transactions and books ----------

  datatype Finding =
    | BookChartInvalid
    | BalanceInvalid
    | UnknownCode(code: string)
    | UnknownReference(reference: string, code: string)

  /** `positions` are, ascending, exactly the entries on no known account. */
  ghost predicate Strangers(positions: seq<nat>, entries: seq<LedgerEntry>, codes: set<string>) {
    && (forall k | 0 <= k < |positions| :: positions[k] < |entries|)
    && (forall k, l | 0 <= k < l < |positions| :: positions[k] < positions[l])
    && (forall i: nat :: i in positions <==> i < |entries| && entries[i].accountCode !in codes)
  }

  /** One finding for each position, in the same order. */
  ghost predicate NamesEach(findings: seq<Finding>, positions: seq<nat>, entries: seq<LedgerEntry>)
    requires forall k | 0 <= k < |positions| :: positions[k] < |entries|
  {
    && |findings| == |positions|
    && forall k | 0 <= k < |positions| :: findings[k] == UnknownCode(entries[positions[k]].accountCode)
  }

  ghost predicate RefersEach(findings: seq<Finding>, positions: seq<nat>, t: JournalTransaction)
    requires forall k | 0 <= k < |positions| :: positions[k] < |t.entries|
  {
    && |findings| == |positions|
    && forall k | 0 <= k < |positions| :: findings[k] == UnknownReference(t.reference, t.entries[positions[k]].accountCode)
  }

  /** Nothing is a stranger exactly when every account is known. */
  lemma NoStrangers(positions: seq<nat>, t: JournalTransaction, codes: set<string>)
    requires Strangers(positions, t.entries, codes)
    ensures positions == [] <==> KnownAccounts(t, codes)
  {
    if positions != [] {
      assert positions[0] in positions;
    } else {
      forall i: nat | i < |t.entries| ensures t.entries[i].accountCode in codes {
        assert i !in positions;
      }
    }
  }

  /** `[... for entry in entries if entry.account_code not in known]`, with the positions it picks. */
  method FindStrangers(entries: seq<LedgerEntry>, codes: set<string>) returns (found: seq<string>, ghost positions: seq<nat>)
    ensures Strangers(positions, entries, codes)
    ensures |found| == |positions|
    ensures forall k | 0 <= k < |positions| :: positions[k] < |entries| && found[k] == entries[positions[k]].accountCode
  {
    found, positions := [], [];
    for i := 0 to |entries|
      invariant forall k, l | 0 <= k < l < |positions| :: positions[k] < positions[l]
      invariant forall k: nat :: k in positions <==> k < i && entries[k].accountCode !in codes
      invariant |found| == |positions|
      invariant forall k | 0 <= k < |positions| :: positions[k] < i && found[k] == entries[positions[k]].accountCode
    {
      if entries[i].accountCode !in codes {
        found := found + [entries[i].accountCode];
        positions := positions + [i];
      }
    }
  }

  predicate TransactionClean(codes: set<string>, t: JournalTransaction) {
    EntriesOk(t.entries) && KnownAccounts(t, codes)
  }

  /** An unbalanced transaction is reported as that alone; a balanced one by each entry on an unknown account. */
  ghost predicate TransactionReport(findings: seq<Finding>, codes: set<string>, t: JournalTransaction) {
    if !EntriesOk(t.entries) then findings == [BalanceInvalid]
    else exists positions: seq<nat> :: Strangers(positions, t.entries, codes) && NamesEach(findings, positions, t.entries)
  }

  method ValidateTransaction(b: Book, t: JournalTransaction) returns (findings: seq<Finding>)
    ensures TransactionReport(findings, Codes(b.accounts), t)
    ensures BalanceInvalid in findings <==> !EntriesOk(t.entries)
    ensures findings == [] <==> TransactionClean(Codes(b.accounts), t)
  {
    hide EntriesOk, Codes, Strangers, KnownAccounts;
    var verdict := Balancing.ValidateTransactionEntries(t.entries);
    if !verdict.Balanced? {
      return [BalanceInvalid];
    }
    var found, positions := FindStrangers(t.entries, Codes(b.accounts));
    findings := seq(|found|, k requires 0 <= k < |found| => UnknownCode(found[k]));
    assert NamesEach(findings, positions, t.entries);
    NoStrangers(positions, t, Codes(b.accounts));
  }

  /** What the report forms accept is what the constructors of the core demand. */
  predicate BookClean(b: Book) {
    && ChartOk(b.accounts)
    && forall i | 0 <= i < |b.transactions| :: TransactionClean(Codes(b.accounts), b.transactions[i])
  }

  /** A transaction's own findings, then its unknown accounts once more under its reference. */
  ghost predicate Block(findings: seq<Finding>, codes: set<string>, t: JournalTransaction) {
    exists own: seq<Finding>, references: seq<Finding>, positions: seq<nat> ::
      && findings == own + references && TransactionReport(own, codes, t)
      && Strangers(positions, t.entries, codes) && RefersEach(references, positions, t)
  }

  /** The findings are one block for each transaction, in order. */
  ghost predicate InBlocks(findings: seq<Finding>, codes: set<string>, transactions: seq<JournalTransaction>)
    decreases |transactions|
  {
    if transactions == [] then findings == []
    else
      var n := |transactions| - 1;
      exists k | 0 <= k <= |findings| ::
        InBlocks(findings[..k], codes, transactions[..n]) && Block(findings[k..], codes, transactions[n])
  }

  lemma BlockClean(findings: seq<Finding>, codes: set<string>, t: JournalTransaction)
    requires Block(findings, codes, t)
    ensures findings == [] <==> TransactionClean(codes, t)
  {
    hide EntriesOk, KnownAccounts;
    var own: seq<Finding>, references: seq<Finding>, positions: seq<nat> :|
      && findings == own + references && TransactionReport(own, codes, t)
      && Strangers(positions, t.entries, codes) && RefersEach(references, positions, t);
    NoStrangers(positions, t, codes);
    if EntriesOk(t.entries) {
      var places: seq<nat> :| Strangers(places, t.entries, codes) && NamesEach(own, places, t.entries);
      NoStrangers(places, t, codes);
    }
  }

  lemma {:induction false} BlocksClean(findings: seq<Finding>, codes: set<string>, transactions: seq<JournalTransaction>)
    requires InBlocks(findings, codes, transactions)
    ensures findings == [] <==> forall i | 0 <= i < |transactions| :: TransactionClean(codes, transactions[i])
    decreases |transactions|
  {
    hide TransactionClean, Block;
    if transactions != [] {
      var n := |transactions| - 1;
      var k :| 0 <= k <= |findings| && InBlocks(findings[..k], codes, transactions[..n]) && Block(findings[k..], codes, transactions[n]);
      BlocksClean(findings[..k], codes, transactions[..n]);
      BlockClean(findings[k..], codes, transactions[n]);
      assert findings == findings[..k] + findings[k..];
    }
  }

  /** A finding for every fault: each unbalanced transaction and each entry on an unknown account shows. */
  lemma {:induction false} EveryFaultShows(
    findings: seq<Finding>, codes: set<string>, transactions: seq<JournalTransaction>, i: nat)
    requires InBlocks(findings, codes, transactions) && i < |transactions|
    ensures !EntriesOk(transactions[i].entries) ==> BalanceInvalid in findings
    ensures forall k | 0 <= k < |transactions[i].entries| && transactions[i].entries[k].accountCode !in codes ::
              UnknownReference(transactions[i].reference, transactions[i].entries[k].accountCode) in findings
    decreases |transactions|
  {
    hide Block, EntriesOk;
    var n := |transactions| - 1;
    var k :| 0 <= k <= |findings| && InBlocks(findings[..k], codes, transactions[..n]) && Block(findings[k..], codes, transactions[n]);
    assert forall f | f in findings[..k] || f in findings[k..] :: f in findings;
    if i < n {
      EveryFaultShows(findings[..k], codes, transactions[..n], i);
    } else {
      BlockShows(findings[k..], codes, transactions[n]);
    }
  }

  lemma BlockShows(findings: seq<Finding>, codes: set<string>, t: JournalTransaction)
    requires Block(findings, codes, t)
    ensures !EntriesOk(t.entries) ==> BalanceInvalid in findings
    ensures forall k | 0 <= k < |t.entries| && t.entries[k].accountCode !in codes ::
              UnknownReference(t.reference, t.entries[k].accountCode) in findings
  {
    hide EntriesOk;
    var own: seq<Finding>, references: seq<Finding>, positions: seq<nat> :|
      && findings == own + references && TransactionReport(own, codes, t)
      && Strangers(positions, t.entries, codes) && RefersEach(references, positions, t);
    forall k: nat | k < |t.entries| && t.entries[k].accountCode !in codes
      ensures UnknownReference(t.reference, t.entries[k].accountCode) in findings
    {
      assert k in positions;
      var p :| 0 <= p < |positions| && positions[p] == k;
      assert references[p] in references;
    }
  }

  lemma OneMoreBlock(findings: seq<Finding>, block: seq<Finding>, codes: set<string>, transactions: seq<JournalTransaction>, n: nat)
    requires n < |transactions| && InBlocks(findings, codes, transactions[..n]) && Block(block, codes, transactions[n])
    ensures InBlocks(findings + block, codes, transactions[..n + 1])
  {
    hide Block;
    var all := findings + block;
    assert transactions[..n + 1][..n] == transactions[..n];
    assert all[..|findings|] == findings && all[|findings|..] == block;
  }

  method ValidateBook(b: Book) returns (findings: seq<Finding>)
    ensures !ChartOk(b.accounts) ==> findings == [BookChartInvalid]
    ensures ChartOk(b.accounts) ==> InBlocks(findings, Codes(b.accounts), b.transactions)
    ensures findings == [] <==> BookClean(b)
  {
    hide EntriesOk, ChartOk, Codes, TransactionReport, TransactionClean, Strangers, Block, InBlocks;
    var verdict := Charts.ValidateAccountCollection(b.accounts);
    if !verdict.Accepted? {
      return [BookChartInvalid];
    }
    findings := [];
    NoBlocks(Codes(b.accounts), b.transactions);
    for i := 0 to |b.transactions|
      invariant InBlocks(findings, Codes(b.accounts), b.transactions[..i])
    {
      var block := BookBlock(b, b.transactions[i]);
      OneMoreBlock(findings, block, Codes(b.accounts), b.transactions, i);
      findings := findings + block;
    }
    assert b.transactions[..|b.transactions|] == b.transactions;
    BlocksClean(findings, Codes(b.accounts), b.transactions);
  }

  lemma NoBlocks(codes: set<string>, transactions: seq<JournalTransaction>)
    ensures InBlocks([], codes, transactions[..0])
  {}

  /** The findings that one transaction adds. */
  method BookBlock(b: Book, t: JournalTransaction) returns (block: seq<Finding>)
    ensures Block(block, Codes(b.accounts), t)
  {
    hide EntriesOk, Codes, TransactionReport, TransactionClean, Strangers;
    var report := ValidateTransaction(b, t);
    var found, positions := FindStrangers(t.entries, Codes(b.accounts));
    var references := seq(|found|, k requires 0 <= k < |found| => UnknownReference(t.reference, found[k]));
    assert RefersEach(references, positions, t);
    block := report + references;
  }

  /** A constructed book draws no finding. */
  lemma BookOkIsClean(iso: Iso4217, b: Book)
    requires BookOk(iso, b)
    ensures BookClean(b)
  {
    hide ChartOk, EntriesOk, EntryOk, PeriodsOk, Codes;
    forall i | 0 <= i < |b.transactions| ensures TransactionClean(Codes(b.accounts), b.transactions[i]) {
      assert TransactionOk(iso, b.transactions[i]);
      assert b.transactions[i].state == Posted && KnownAccounts(b.transactions[i], Codes(b.accounts));
    }
  }

  // ---------- Currency conversions ----------

  datatype Rate = Finite(amount: Dec) | NotFinite

  datatype FxFinding = RateInvalid | BaseAbsent | CounterAbsent | RateMismatch

  predicate RateOk(rate: Rate) {
    rate.Finite? && Value(rate.amount) > 0.0
  }

  /** The rates that pass are the positive finite ones. */
  lemma RateOkMeans(rate: Rate)
    ensures RateOk(rate) <==> rate.Finite? && rate.amount.coeff > 0
  {
    if rate.Finite? { ValueSign(rate.amount); }
  }

  /** Two digits where the standard gives none. */
  function CurrencyDigits(iso: Iso4217, currency: string): nat {
    if currency in iso && iso[currency].Some? then iso[currency].value else 2
  }

  function Tolerance(digits: nat): real {
    1.0 / Pow10(digits) as real
  }

  /** Base debits times the rate are the counter credits, up to one unit of the last digit. */
  predicate Reconciles(baseDebit: real, counterCredit: real, rate: real, digits: nat) {
    Distance(baseDebit * rate, counterCredit) <= Tolerance(digits)
  }

  predicate FxAccepted(iso: Iso4217, entries: seq<LedgerEntry>, base: string, counter: string, rate: Rate) {
    && RateOk(rate)
    && Total(entries, Debit, base) != 0.0
    && Total(entries, Credit, counter) != 0.0
    && Reconciles(Total(entries, Debit, base), Total(entries, Credit, counter), Value(rate.amount), CurrencyDigits(iso, counter))
  }

  method ValidateFxConversion(iso: Iso4217, t: JournalTransaction, base: string, counter: string, rate: Rate)
    returns (findings: seq<FxFinding>)
    ensures findings == [] <==> FxAccepted(iso, t.entries, base, counter, rate)
    ensures RateInvalid in findings <==> !RateOk(rate)
    ensures RateInvalid in findings ==> findings == [RateInvalid]
    ensures BaseAbsent in findings <==> RateOk(rate) && Total(t.entries, Debit, base) == 0.0
    ensures CounterAbsent in findings <==> RateOk(rate) && Total(t.entries, Credit, counter) == 0.0
    ensures RateMismatch in findings ==> findings == [RateMismatch]
    ensures |findings| <= 2 && (|findings| == 2 ==> findings == [BaseAbsent, CounterAbsent])
  {
    hide Total, Value, Balancing.Counts;
    if rate.NotFinite? || Value(rate.amount) <= 0.0 {
      return [RateInvalid];
    }
    var debits := Balancing.TotalsByCurrency(t.entries, Some(Debit));
    var credits := Balancing.TotalsByCurrency(t.entries, Some(Credit));
    var baseDebit := Balancing.GetOrZero(debits, base);
    var counterCredit := Balancing.GetOrZero(credits, counter);
    findings := [];
    if baseDebit == 0.0 {
      findings := findings + [BaseAbsent];
    }
    if counterCredit == 0.0 {
      findings := findings + [CounterAbsent];
    }
    if findings != [] {
      return;
    }
    if !Reconciles(baseDebit, counterCredit, Value(rate.amount), CurrencyDigits(iso, counter)) {
      findings := findings + [RateMismatch];
    }
  }

  /** The tolerance is one unit of the last digit. */
  lemma ToleranceIsUnit(digits: nat)
    ensures Tolerance(digits) * Pow10(digits) as real == 1.0
    ensures Tolerance(digits) == Value(Dec(1, -(digits as int)))
  {
    ValueOfUnit(digits);
    hide Pow10, Value;
    OneOver(Pow10(digits) as real);
  }

  lemma ValueOfUnit(digits: nat)
    ensures Value(Dec(1, -(digits as int))) == 1.0 / Pow10(digits) as real
  {
    if digits == 0 { assert Pow10(0) == 1; }
  }

  lemma OneOver(p: real)
    requires p > 0.0
    ensures (1.0 / p) * p == 1.0
  {}

  lemma HalfUnits(digits: nat, n: nat)
    requires n <= 2
    ensures (0.5 / Pow10(digits) as real) * n as real <= Tolerance(digits)
  {
    hide Pow10;
    var p := Pow10(digits) as real;
    assert 0.5 / p + 0.5 / p == 1.0 / p;
    assert 0.5 / p > 0.0;
  }

  /** A conversion whose counter total is one or two shares of base times rate, each rounded half-up to the
      counter currency's own digits, is accepted. */
  lemma TwoSharesAccepted(
    iso: Iso4217, entries: seq<LedgerEntry>, base: string, counter: string, rate: Rate, shares: seq<real>)
    requires RateOk(rate) && Total(entries, Debit, base) != 0.0 && Total(entries, Credit, counter) != 0.0
    requires |shares| <= 2 && Sum(shares) == Total(entries, Debit, base) * Value(rate.amount)
    requires Total(entries, Credit, counter) == RoundedSumTo(shares, CurrencyDigits(iso, counter))
    ensures FxAccepted(iso, entries, base, counter, rate)
  {
    hide Sum, RoundedSumTo, Tolerance, Total, Value, CurrencyDigits, Pow10;
    RoundedSharesTo(shares, CurrencyDigits(iso, counter));
    HalfUnits(CurrencyDigits(iso, counter), |shares|);
  }

  /** Shares rounded to cents are within the tolerance of every currency with at most two digits. */
  lemma TwoCentSharesAccepted(
    iso: Iso4217, entries: seq<LedgerEntry>, base: string, counter: string, rate: Rate, shares: seq<real>)
    requires RateOk(rate) && Total(entries, Debit, base) != 0.0 && Total(entries, Credit, counter) != 0.0
    requires counter in iso && (iso[counter].Some? ==> iso[counter].value <= 2) && |shares| <= 2
    requires Sum(shares) == Total(entries, Debit, base) * Value(rate.amount)
    requires Total(entries, Credit, counter) == RoundedSum(shares)
    ensures FxAccepted(iso, entries, base, counter, rate)
  {
    hide Sum, RoundedSum, Total, Value;
    RoundedShares(shares);
    assert Pow10(0) == 1 && Pow10(1) == 10 && Pow10(2) == 100;
  }

  // ---------- Three shares and more ----------

  /** One base unit buys one counter unit and half of its last digit. */
  function FxRate(digits: nat): Rate {
    Finite(Dec(10 * Pow10(digits) + 5, -(digits as int) - 1))
  }

  function Line(side: PostingSide, amount: Dec, currency: string): LedgerEntry {
    LedgerEntry("1000", side, amount, currency, None, None)
  }

  /** The counter amount of one share, rounded. */
  function Rounded(n: nat, digits: nat): Dec {
    Dec(n * (Pow10(digits) + 1), -(digits as int))
  }

  /** Each of n shares debits one base unit and credits its rounded counter amount. */
  function ShareLines(base: string, counter: string, digits: nat, n: nat): (r: seq<LedgerEntry>)
    ensures |r| == 2 * n
  {
    if n == 0 then []
    else ShareLines(base, counter, digits, n - 1) + [Line(Debit, Dec(1, 0), base)] + [Line(Credit, Rounded(1, digits), counter)]
  }

  /** The shares, and one line in each currency that balances them. */
  function SharesTransaction(base: string, counter: string, digits: nat, n: nat): JournalTransaction {
    JournalTransaction(
      "FX", "2026-01-01T00:00:00", "Conversion in shares",
      ShareLines(base, counter, digits, n) + [Line(Credit, Dec(n, 0), base)] + [Line(Debit, Rounded(n, digits), counter)],
      None, Posted, None)
  }

  function EvenShares(digits: nat, n: nat): seq<real> {
    if n == 0 then [] else EvenShares(digits, n - 1) + [1.0 + 0.5 * Tolerance(digits)]
  }

  lemma ShareRounded(digits: nat)
    ensures RoundTo(1.0 + 0.5 * Tolerance(digits), digits) == 1.0 + Tolerance(digits)
  {
    HalfPartUp(Pow10(digits));
  }

  /** One and half a p-th part rounds to one and a p-th part. */
  lemma HalfPartUp(n: nat)
    requires n > 0
    ensures RoundAt(1.0 + 0.5 * (1.0 / n as real), n as real) == 1.0 + 1.0 / n as real
  {
    var p := n as real;
    var u := 1.0 / p;
    var x := 1.0 + 0.5 * u;
    OneOver(p);
    assert p * x == p + 0.5 * (u * p);
    WholeUp(n, p * x + 0.5);
    OverOne(p, u);
  }

  lemma OverOne(p: real, u: real)
    requires p > 0.0 && u * p == 1.0
    ensures (p + 1.0) / p == 1.0 + u
  {
    assert (1.0 + u) * p == p + 1.0;
  }

  lemma WholeUp(n: nat, x: real)
    requires x == n as real + 1.0
    ensures x.Floor == n + 1
  {}

  lemma {:induction false} EvenSharesSum(digits: nat, n: nat)
    ensures |EvenShares(digits, n)| == n
    ensures Sum(EvenShares(digits, n)) == n as real * (1.0 + 0.5 * Tolerance(digits))
    ensures RoundedSumTo(EvenShares(digits, n), digits) == n as real * (1.0 + Tolerance(digits))
  {
    hide Tolerance, RoundTo;
    if n > 0 {
      EvenSharesSum(digits, n - 1);
      ShareRounded(digits);
      assert EvenShares(digits, n)[..n - 1] == EvenShares(digits, n - 1);
      OneTimesMore(n - 1, 1.0 + 0.5 * Tolerance(digits));
      OneTimesMore(n - 1, 1.0 + Tolerance(digits));
    }
  }

  lemma OneTimesMore(n: nat, x: real)
    ensures (n + 1) as real * x == n as real * x + x
  {}

  lemma LineValues(n: nat, digits: nat)
    ensures Value(Dec(n, 0)) == n as real
    ensures Value(Rounded(n, digits)) == n as real * (1.0 + Tolerance(digits))
  {
    assert Pow10(0) == 1;
    hide Pow10;
    var p := Pow10(digits) as real;
    assert (n * (Pow10(digits) + 1)) as real == n as real * (p + 1.0);
    assert (p + 1.0) / p == 1.0 + 1.0 / p;
    assert n as real * (p + 1.0) / p == n as real * ((p + 1.0) / p);
  }

  lemma {:induction false} ShareLinesTotal(base: string, counter: string, digits: nat, n: nat, side: PostingSide, currency: string)
    requires base != counter
    ensures Total(ShareLines(base, counter, digits, n), side, currency)
         == (if side == Debit && currency == base then n as real
             else if side == Credit && currency == counter then n as real * (1.0 + Tolerance(digits))
             else 0.0)
  {
    hide Value, Tolerance, Rounded, Pow10, ShareLines, Total;
    if n == 0 {
      NoShareLines(base, counter, digits, side, currency);
    } else {
      ShareLinesTotal(base, counter, digits, n - 1, side, currency);
      ShareLinesGrow(base, counter, digits, n, side, currency);
      LineValues(1, digits);
      OneTimesMore(n - 1, 1.0 + Tolerance(digits));
    }
  }

  lemma NoShareLines(base: string, counter: string, digits: nat, side: PostingSide, currency: string)
    ensures Total(ShareLines(base, counter, digits, 0), side, currency) == 0.0
  {}

  lemma ShareLinesGrow(base: string, counter: string, digits: nat, n: nat, side: PostingSide, currency: string)
    requires n > 0
    ensures Total(ShareLines(base, counter, digits, n), side, currency)
         == Total(ShareLines(base, counter, digits, n - 1), side, currency)
          + (if side == Debit && currency == base then Value(Dec(1, 0)) else 0.0)
          + (if side == Credit && currency == counter then Value(Rounded(1, digits)) else 0.0)
  {
    hide Value, Rounded, Total;
    var before := ShareLines(base, counter, digits, n - 1);
    var one, two := Line(Debit, Dec(1, 0), base), Line(Credit, Rounded(1, digits), counter);
    Balancing.TotalAppend(before, one, side, currency);
    Balancing.TotalAppend(before + [one], two, side, currency);
  }

  lemma SharesTotal(base: string, counter: string, digits: nat, n: nat, side: PostingSide, currency: string)
    requires base != counter
    ensures Total(SharesTransaction(base, counter, digits, n).entries, side, currency)
         == (if currency == base then n as real else if currency == counter then n as real * (1.0 + Tolerance(digits)) else 0.0)
  {
    hide Value, Total, ShareLines, Tolerance, Rounded, Pow10;
    var lines := ShareLines(base, counter, digits, n);
    var one, two := Line(Credit, Dec(n, 0), base), Line(Debit, Rounded(n, digits), counter);
    ShareLinesTotal(base, counter, digits, n, side, currency);
    Balancing.TotalAppend(lines, one, side, currency);
    Balancing.TotalAppend(lines + [one], two, side, currency);
    LineValues(n, digits);
  }

  /** The digits of a currency: those of the table, or two. */
  predicate DigitsAre(iso: Iso4217, currency: string, digits: nat) {
    currency in iso && (iso[currency] == Some(digits) || (iso[currency].None? && digits == 2))
  }

  predicate LineOk(iso: Iso4217, e: LedgerEntry, digits: nat) {
    && e.accountCode == "1000" && e.description.None? && e.taxRate.None? && e.amount.coeff >= 0
    && CurrencyOk(iso, e.currency)
    && (e.amount.exp == 0 || (e.amount.exp == -(digits as int) && DigitsAre(iso, e.currency, digits)))
  }

  lemma LineIsEntry(iso: Iso4217, e: LedgerEntry, digits: nat)
    requires LineOk(iso, e, digits)
    ensures EntryOk(iso, e)
  {}

  lemma {:induction false} ShareLinesOk(iso: Iso4217, base: string, counter: string, digits: nat, n: nat)
    requires CurrencyOk(iso, base) && CurrencyOk(iso, counter) && DigitsAre(iso, counter, digits)
    ensures forall e | e in ShareLines(base, counter, digits, n) :: LineOk(iso, e, digits)
  {
    hide CurrencyOk, DigitsAre, Pow10;
    if n > 0 { ShareLinesOk(iso, base, counter, digits, n - 1); }
  }

  lemma SharesTransactionOk(iso: Iso4217, base: string, counter: string, digits: nat, n: nat)
    requires CurrencyOk(iso, base) && CurrencyOk(iso, counter) && DigitsAre(iso, counter, digits) && base != counter
    ensures TransactionOk(iso, SharesTransaction(base, counter, digits, n))
  {
    hide CurrencyOk, DigitsAre, EntryOk, Total, ShareLines, Pow10;
    var t := SharesTransaction(base, counter, digits, n);
    ShareLinesOk(iso, base, counter, digits, n);
    forall i | 0 <= i < |t.entries| ensures EntryOk(iso, t.entries[i]) {
      assert t.entries[i] in t.entries;
      LineIsEntry(iso, t.entries[i], digits);
    }
    forall c | c in Currencies(t.entries) ensures Total(t.entries, Debit, c) == Total(t.entries, Credit, c) {
      SharesTotal(base, counter, digits, n, Debit, c);
      SharesTotal(base, counter, digits, n, Credit, c);
    }
  }

  lemma RateValue(digits: nat)
    ensures Value(FxRate(digits).amount) == 1.0 + 0.5 * Tolerance(digits) && RateOk(FxRate(digits))
  {
    var p := Pow10(digits) as real;
    assert Pow10(digits + 1) == 10 * Pow10(digits);
    OneOver(p);
    TenthsOver(p, 1.0 / p);
    assert Value(FxRate(digits).amount) == (10.0 * p + 5.0) / (10.0 * p);
  }

  lemma TenthsOver(p: real, u: real)
    requires p > 0.0 && u * p == 1.0
    ensures (10.0 * p + 5.0) / (10.0 * p) == 1.0 + 0.5 * u && u > 0.0
  {
    assert (1.0 + 0.5 * u) * (10.0 * p) == 10.0 * p + 5.0 * (u * p);
    ProductSign(u, p);
  }

  lemma ProductSign(u: real, p: real)
    ensures u <= 0.0 && p > 0.0 ==> u * p <= 0.0
  {}

  lemma TooFar(digits: nat, n: nat)
    requires n > 2
    ensures !Reconciles(n as real, n as real * (1.0 + Tolerance(digits)), 1.0 + 0.5 * Tolerance(digits), digits)
  {
    ToleranceIsUnit(digits);
    hide Pow10, Value, Tolerance;
    var u := Tolerance(digits);
    assert u > 0.0;
    assert n as real * (1.0 + u) == n as real + n as real * u;
    assert n as real * (1.0 + 0.5 * u) == n as real + 0.5 * (n as real * u);
    assert n as real * u >= 3.0 * u;
  }

  /** Two is the limit: for every larger number of shares, and any two currencies, there is a valid transaction
      whose counter total is that many shares of base times rate, each rounded half-up to the counter currency's
      digits, and which is refused. */
  lemma MoreSharesCanFail(iso: Iso4217, base: string, counter: string, digits: nat, n: nat)
    requires n > 2
    requires CurrencyOk(iso, base) && CurrencyOk(iso, counter) && DigitsAre(iso, counter, digits) && base != counter
    ensures var t, shares, rate := SharesTransaction(base, counter, digits, n), EvenShares(digits, n), FxRate(digits);
            && TransactionOk(iso, t) && RateOk(rate) && |shares| == n
            && Sum(shares) == Total(t.entries, Debit, base) * Value(rate.amount) && Total(t.entries, Debit, base) != 0.0
            && RoundedSumTo(shares, digits) == Total(t.entries, Credit, counter) && Total(t.entries, Credit, counter) != 0.0
            && !FxAccepted(iso, t.entries, base, counter, rate)
  {
    ToleranceIsUnit(digits);
    hide CurrencyOk, Total, Sum, RoundedSumTo, SharesTransaction, TransactionOk, Pow10, Value, Tolerance, Reconciles, FxRate;
    SharesTransactionOk(iso, base, counter, digits, n);
    SharesTotal(base, counter, digits, n, Debit, base);
    SharesTotal(base, counter, digits, n, Credit, counter);
    EvenSharesSum(digits, n);
    RateValue(digits);
    TooFar(digits, n);
    assert Tolerance(digits) > 0.0;
    assert n as real * (1.0 + Tolerance(digits)) > 0.0;
    assert CurrencyDigits(iso, counter) == digits;
  }
}
