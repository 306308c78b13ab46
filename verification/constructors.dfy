/** What the constructors accept, what they make of it, and what a refusal says. */
module Constructors {
  import opened Text
  import opened Decimals
  import opened Model

  // ---------- Letters ----------

  const LOWER := "abcdefghijklmnopqrstuvwxyz"
  const CAPITALS := "ABCDEFGHIJKLMNOPQRSTUVWXYZ"

  /** Upper-casing maps the small letters onto the capitals and leaves every other character alone. */
  lemma UpperLetters(s: string, i: nat)
    requires i < |s|
    ensures forall k | 0 <= k < |LOWER| && s[i] == LOWER[k] :: k < |CAPITALS| && Upper(s)[i] == CAPITALS[k]
    ensures s[i] !in LOWER ==> Upper(s)[i] == s[i]
  {
    hide Upper;
    assert Upper(s)[i] == UpperChar(s[i]);
    LettersInOrder(s[i]);
  }

  lemma LettersInOrder(c: char)
    ensures forall k | 0 <= k < |LOWER| :: LOWER[k] == 'a' + k as char && CAPITALS[k] == 'A' + k as char
    ensures c in LOWER <==> 'a' <= c <= 'z'
  {
    if 'a' <= c <= 'z' {
      assert LOWER[c as int - 'a' as int] == c;
    }
  }

  // ---------- Tidy fields ----------

  function TidyOptional(s: Option<string>): Option<string> {
    match s case None => None case Some(t) => Some(Strip(t))
  }

  function TidyCurrency(s: string): string {
    Upper(Strip(s))
  }

  lemma FieldDecides(s: string)
    ensures RequireField(s) == if NonBlank(Strip(s)) then Ok(Strip(s)) else Err(ValueError(BlankText))
  {}

  lemma OptionalDecides(s: Option<string>)
    ensures OptionalField(s) == if OptionalNonBlank(TidyOptional(s)) then Ok(TidyOptional(s)) else Err(ValueError(BlankText))
  {
    hide Strip, NonBlank, RequireField;
    if s.Some? { FieldDecides(s.value); }
  }

  lemma CurrencyDecides(iso: Iso4217, s: string)
    ensures NormalizeCurrency(iso, s)
         == if CurrencyOk(iso, TidyCurrency(s)) then Ok(TidyCurrency(s))
            else if NonBlank(Strip(s)) then Err(ValueError(UnknownCurrency)) else Err(ValueError(BlankText))
  {
    hide Upper;
    var t := Strip(s);
    if t != "" {
      UpperKeeps(t);
    } else {
      assert |Upper(t)| == 0;
    }
  }

  // ---------- Values ----------

  function TidyAccount(a: Account): Account {
    a.(code := Strip(a.code), name := Strip(a.name), currency := TidyCurrency(a.currency), parentCode := TidyOptional(a.parentCode))
  }

  /** The account with its texts trimmed and its currency in capitals, or a fault when that breaks a rule. */
  lemma AccountDecides(iso: Iso4217, raw: Account)
    ensures AccountOk(iso, TidyAccount(raw)) ==> MakeAccount(iso, raw) == Ok(TidyAccount(raw))
    ensures !AccountOk(iso, TidyAccount(raw)) ==> MakeAccount(iso, raw).Err? && MakeAccount(iso, raw).fault.ValueError?
    ensures MakeAccount(iso, raw) == Err(ValueError(SelfParent)) ==> TidyOptional(raw.parentCode) == Some(Strip(raw.code))
    ensures MakeAccount(iso, raw) == Err(ValueError(UnknownCurrency)) ==> TidyCurrency(raw.currency) !in iso
    ensures MakeAccount(iso, raw) == Err(ValueError(BlankText)) ==>
              Strip(raw.code) == "" || Strip(raw.name) == "" || Strip(raw.currency) == "" || TidyOptional(raw.parentCode) == Some("")
  {
    hide RequireField, OptionalField, NormalizeCurrency, Strip, Upper, TidyOptional;
    FieldDecides(raw.code);
    FieldDecides(raw.name);
    CurrencyDecides(iso, raw.currency);
    OptionalDecides(raw.parentCode);
    Blank(raw.code);
    Blank(raw.name);
    Blank(raw.currency);
    BlankOptional(raw.parentCode);
    UnknownMeans(iso, raw.currency);
  }

  lemma Blank(s: string)
    ensures NonBlank(Strip(s)) <==> Strip(s) != ""
  {}

  lemma BlankOptional(s: Option<string>)
    ensures OptionalNonBlank(TidyOptional(s)) <==> TidyOptional(s) != Some("")
  {
    if s.Some? { Blank(s.value); }
  }

  /** A text that is not blank is a currency exactly when the table has it in capitals. */
  lemma UnknownMeans(iso: Iso4217, s: string)
    ensures Strip(s) != "" ==> (CurrencyOk(iso, TidyCurrency(s)) <==> TidyCurrency(s) in iso)
  {
    if Strip(s) != "" { UpperKeeps(Strip(s)); }
  }

  function TidyEntry(e: LedgerEntry): LedgerEntry {
    e.(accountCode := Strip(e.accountCode), currency := TidyCurrency(e.currency), description := TidyOptional(e.description))
  }

  lemma EntryDecides(iso: Iso4217, raw: LedgerEntry)
    ensures EntryOk(iso, TidyEntry(raw)) ==> MakeEntry(iso, raw) == Ok(TidyEntry(raw))
    ensures !EntryOk(iso, TidyEntry(raw)) ==> MakeEntry(iso, raw).Err? && MakeEntry(iso, raw).fault.ValueError?
    ensures MakeEntry(iso, raw) == Err(ValueError(NegativeAmount)) ==> Value(raw.amount) < 0.0
    ensures MakeEntry(iso, raw) == Err(ValueError(UnknownCurrency)) ==> TidyCurrency(raw.currency) !in iso
    ensures MakeEntry(iso, raw) == Err(ValueError(TooManyDecimals)) ==>
              && TidyCurrency(raw.currency) in iso && iso[TidyCurrency(raw.currency)].Some?
              && FractionDigits(raw.amount) > iso[TidyCurrency(raw.currency)].value
    ensures MakeEntry(iso, raw) == Err(ValueError(TaxRateOutOfRange)) ==>
              raw.taxRate.Some? && (Value(raw.taxRate.value) < 0.0 || Value(raw.taxRate.value) > 1.0)
    ensures MakeEntry(iso, raw) == Err(ValueError(BlankText)) ==>
              Strip(raw.accountCode) == "" || Strip(raw.currency) == "" || TidyOptional(raw.description) == Some("")
  {
    hide RequireField, OptionalField, NormalizeCurrency, Strip, Upper, TidyOptional, Value, FractionDigits;
    FieldDecides(raw.accountCode);
    CurrencyDecides(iso, raw.currency);
    OptionalDecides(raw.description);
    Blank(raw.accountCode);
    Blank(raw.currency);
    BlankOptional(raw.description);
    UnknownMeans(iso, raw.currency);
    ValueSign(raw.amount);
    if raw.taxRate.Some? { ValueSign(raw.taxRate.value); }
  }

  function TidyTransaction(t: JournalTransaction): JournalTransaction {
    t.(reference := Strip(t.reference), description := Strip(t.description), reversalOf := TidyOptional(t.reversalOf))
  }

  lemma TransactionDecides(iso: Iso4217, raw: JournalTransaction)
    requires forall i | 0 <= i < |raw.entries| :: EntryOk(iso, raw.entries[i])
    requires raw.period.Some? ==> FiscalPeriodOk(raw.period.value)
    ensures TransactionOk(iso, TidyTransaction(raw)) ==> MakeTransaction(iso, raw) == Ok(TidyTransaction(raw))
    ensures !TransactionOk(iso, TidyTransaction(raw)) ==> MakeTransaction(iso, raw).Err? && MakeTransaction(iso, raw).fault.ValueError?
    ensures MakeTransaction(iso, raw) == Err(ValueError(SelfReversal)) ==> TidyOptional(raw.reversalOf) == Some(Strip(raw.reference))
    ensures MakeTransaction(iso, raw) == Err(ValueError(EntriesInvalid)) ==> raw.state == Posted && !EntriesOk(raw.entries)
    ensures MakeTransaction(iso, raw) == Err(ValueError(BlankText)) ==>
              Strip(raw.reference) == "" || Strip(raw.description) == "" || TidyOptional(raw.reversalOf) == Some("")
  {
    hide RequireField, OptionalField, Strip, TidyOptional, EntriesOk, EntryOk, FiscalPeriodOk;
    FieldDecides(raw.reference);
    FieldDecides(raw.description);
    OptionalDecides(raw.reversalOf);
    Blank(raw.reference);
    Blank(raw.description);
    BlankOptional(raw.reversalOf);
  }

  function TidyBook(b: Book): Book {
    b.(code := Strip(b.code), name := Strip(b.name), baseCurrency := TidyCurrency(b.baseCurrency),
       legislativePack := Strip(b.legislativePack))
  }

  lemma BookDecides(iso: Iso4217, raw: Book)
    requires PartsOk(iso, raw)
    ensures BookOk(iso, TidyBook(raw)) ==> MakeBook(iso, raw) == Ok(TidyBook(raw))
    ensures !BookOk(iso, TidyBook(raw)) ==> MakeBook(iso, raw).Err? && MakeBook(iso, raw).fault.ValueError?
    ensures MakeBook(iso, raw) == Err(ValueError(ChartInvalid)) ==> !ChartOk(raw.accounts)
    ensures MakeBook(iso, raw) == Err(ValueError(PeriodsInvalid)) ==> !PeriodsOk(raw.periods)
    ensures MakeBook(iso, raw) == Err(ValueError(NotPosted)) ==> exists t | t in raw.transactions :: t.state != Posted
    ensures MakeBook(iso, raw) == Err(ValueError(UnknownAccount)) ==>
              exists t | t in raw.transactions :: !KnownAccounts(t, Codes(raw.accounts))
    ensures MakeBook(iso, raw) == Err(ValueError(UnknownPeriod)) ==> !PeriodsKnown(raw)
  {
    hide RequireField, NormalizeCurrency, Strip, Upper, ChartOk, PeriodsOk, PartsOk, KnownAccounts, KnownPeriod, Codes, FiscalPeriods;
    FieldDecides(raw.code);
    FieldDecides(raw.name);
    FieldDecides(raw.legislativePack);
    CurrencyDecides(iso, raw.baseCurrency);
    Blank(raw.code);
    Blank(raw.name);
    Blank(raw.legislativePack);
    TidyParts(iso, raw);
  }

  lemma TidyParts(iso: Iso4217, raw: Book)
    ensures PartsOk(iso, TidyBook(raw)) <==> PartsOk(iso, raw)
    ensures PostedToChart(TidyBook(raw)) <==> PostedToChart(raw)
    ensures PeriodsKnown(TidyBook(raw)) <==> PeriodsKnown(raw)
  {
    hide Strip, Upper, AccountOk, BookPeriodOk, TransactionOk, KnownAccounts, KnownPeriod, Codes, FiscalPeriods;
  }
}
