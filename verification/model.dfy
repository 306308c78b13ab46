/** The immutable values of the ledger and the rules their constructors enforce. */
module Model {
  import opened Text
  import opened Decimals
  import opened Dates

  // ---------- Faults ----------

  datatype Reason =
    | BlankText
    | UnknownCurrency
    | NegativeAmount
    | TooManyDecimals
    | TaxRateOutOfRange
    | SelfParent
    | SelfReversal
    | EntriesInvalid
    | EmptyRange
    | BadPeriod
    | ChartInvalid
    | PeriodsInvalid
    | NotPosted
    | UnknownAccount
    | UnknownPeriod
    | BadText

  /** The exception classes that reach a caller. */
  datatype Fault = ValueError(reason: Reason) | TypeError | KeyError | ArithmeticError

  datatype Result<+T> = Ok(value: T) | Err(fault: Fault) {
    predicate IsFailure() { Err? }
    function PropagateFailure<U>(): Result<U>
      requires Err?
    {
      Err(fault)
    }
    function Extract(): T
      requires Ok?
    {
      value
    }
  }

  // ---------- Values ----------

  datatype PostingSide = Debit | Credit

  datatype PeriodState = Open | Closed | Locked

  datatype TransactionState = Draft | Posted | Reversed

  datatype FiscalPeriod = FiscalPeriod(fiscalYear: int, quarter: int, month: int)

  datatype Account = Account(
    code: string, name: string, normalSide: PostingSide, currency: string,
    parentCode: Option<string>, allowPosting: bool, active: bool)

  datatype BookPeriod = BookPeriod(period: FiscalPeriod, startDate: Date, endDate: Date, state: PeriodState)

  datatype LedgerEntry = LedgerEntry(
    accountCode: string, side: PostingSide, amount: Dec, currency: string,
    description: Option<string>, taxRate: Option<Dec>)

  /** `postedAt` is the timestamp's isoformat text. */
  datatype JournalTransaction = JournalTransaction(
    reference: string, postedAt: string, description: string, entries: seq<LedgerEntry>,
    period: Option<FiscalPeriod>, state: TransactionState, reversalOf: Option<string>)

  datatype Book = Book(
    code: string, name: string, baseCurrency: string, startMonth: int, legislativePack: string,
    accounts: seq<Account>, periods: seq<BookPeriod>, transactions: seq<JournalTransaction>)

  // ---------- Currencies ----------

  /** The ISO 4217 table: every valid code with its number of decimals, when it has one. */
  type Iso4217 = map<string, Option<nat>>

  function UpperChar(c: char): (u: char)
    ensures IsSpace(u) <==> IsSpace(c)
  {
    if 'a' <= c <= 'z' then c - 'a' + 'A' else c
  }

  function Upper(s: string): (u: string)
    ensures |u| == |s|
    ensures forall i | 0 <= i < |s| :: u[i] == UpperChar(s[i])
  {
    seq(|s|, i requires 0 <= i < |s| => UpperChar(s[i]))
  }

  lemma UpperKeeps(s: string)
    requires NonBlank(s)
    ensures NonBlank(Upper(s)) && Upper(Upper(s)) == Upper(s)
  {
    var u := Upper(s);
    assert u[0] == UpperChar(s[0]) && u[|u| - 1] == UpperChar(s[|s| - 1]);
  }

  /** A currency code as a constructor stores it. */
  predicate CurrencyOk(iso: Iso4217, c: string) {
    c in iso && NonBlank(c) && Upper(c) == c
  }

  function NormalizeCurrency(iso: Iso4217, s: string): (r: Result<string>)
    ensures r.Ok? ==> CurrencyOk(iso, r.value)
    ensures CurrencyOk(iso, s) ==> r == Ok(s)
  {
    match RequireText(s)
    case None => Err(ValueError(BlankText))
    case Some(t) =>
      if Upper(t) in iso then
        UpperKeeps(t);
        Ok(Upper(t))
      else Err(ValueError(UnknownCurrency))
  }

  // ---------- Text fields ----------

  function RequireField(s: string): (r: Result<string>)
    ensures r.Ok? ==> NonBlank(r.value)
    ensures NonBlank(s) ==> r == Ok(s)
  {
    match RequireText(s)
    case None => Err(ValueError(BlankText))
    case Some(t) => Ok(t)
  }

  function OptionalField(s: Option<string>): (r: Result<Option<string>>)
    ensures r.Ok? ==> OptionalNonBlank(r.value)
    ensures OptionalNonBlank(s) ==> r == Ok(s)
  {
    match s
    case None => Ok(None)
    case Some(t) =>
      var u :- RequireField(t);
      Ok(Some(u))
  }

  // ---------- Accounts ----------

  predicate AccountOk(iso: Iso4217, a: Account) {
    && NonBlank(a.code) && NonBlank(a.name) && CurrencyOk(iso, a.currency)
    && OptionalNonBlank(a.parentCode) && a.parentCode != Some(a.code)
  }

  /** Anything a constructor accepts satisfies its rules, and values that do are kept as they are. */
  function MakeAccount(iso: Iso4217, raw: Account): (r: Result<Account>)
    ensures r.Ok? ==> AccountOk(iso, r.value)
    ensures AccountOk(iso, raw) ==> r == Ok(raw)
  {
    var code :- RequireField(raw.code);
    var name :- RequireField(raw.name);
    var currency :- NormalizeCurrency(iso, raw.currency);
    var parent :- OptionalField(raw.parentCode);
    if parent == Some(code) then Err(ValueError(SelfParent))
    else Ok(raw.(code := code, name := name, currency := currency, parentCode := parent))
  }

  function Codes(accounts: seq<Account>): set<string> {
    set a | a in accounts :: a.code
  }

  predicate UniqueCodes(accounts: seq<Account>) {
    forall i, j | 0 <= i < j < |accounts| :: accounts[i].code != accounts[j].code
  }

  predicate ParentsExist(accounts: seq<Account>) {
    forall i | 0 <= i < |accounts| && accounts[i].parentCode.Some? :: accounts[i].parentCode.value in Codes(accounts)
  }

  type ParentMap = map<string, Option<string>>

  /** Later accounts overwrite earlier ones, as in the dictionary the validator fills. */
  function ParentsOf(accounts: seq<Account>): ParentMap {
    if accounts == [] then map[]
    else
      var last := accounts[|accounts| - 1];
      ParentsOf(accounts[..|accounts| - 1])[last.code := last.parentCode]
  }

  /** `parent_map.get(code)`. */
  function Parent(parents: ParentMap, code: string): Option<string> {
    if code in parents then parents[code] else None
  }

  /** The n-th ancestor; None once the chain has ended. */
  function Ancestor(parents: ParentMap, code: string, n: nat): Option<string> {
    if n == 0 then Some(code)
    else
      match Ancestor(parents, code, n - 1)
      case None => None
      case Some(c) => Parent(parents, c)
  }

  /** Unique codes, existing parents, and every account below a root by fewer than n steps. */
  predicate ChartOk(accounts: seq<Account>) {
    && UniqueCodes(accounts)
    && ParentsExist(accounts)
    && forall i | 0 <= i < |accounts| :: Ancestor(ParentsOf(accounts), accounts[i].code, |accounts|).None?
  }

  // ---------- Periods ----------

  predicate FiscalPeriodOk(p: FiscalPeriod) {
    1 <= p.quarter <= 4 && 1 <= p.month <= 12
  }

  function MakeFiscalPeriod(raw: FiscalPeriod): (r: Result<FiscalPeriod>)
    ensures r.Ok? ==> FiscalPeriodOk(r.value)
    ensures FiscalPeriodOk(raw) ==> r == Ok(raw)
  {
    if FiscalPeriodOk(raw) then Ok(raw) else Err(ValueError(BadPeriod))
  }

  predicate BookPeriodOk(p: BookPeriod) {
    FiscalPeriodOk(p.period) && DateLe(p.startDate, p.endDate)
  }

  function MakeBookPeriod(raw: BookPeriod): (r: Result<BookPeriod>)
    requires FiscalPeriodOk(raw.period)
    ensures r.Ok? ==> BookPeriodOk(r.value)
    ensures BookPeriodOk(raw) ==> r == Ok(raw)
  {
    if DateLt(raw.endDate, raw.startDate) then Err(ValueError(EmptyRange)) else Ok(raw)
  }

  /** Two periods of one book: different fiscal periods and no common day. */
  predicate Apart(a: BookPeriod, b: BookPeriod) {
    a.period != b.period && (DateLt(a.endDate, b.startDate) || DateLt(b.endDate, a.startDate))
  }

  predicate PeriodsOk(periods: seq<BookPeriod>) {
    forall i, j | 0 <= i < |periods| && 0 <= j < |periods| && i != j :: Apart(periods[i], periods[j])
  }

  function FiscalPeriods(periods: seq<BookPeriod>): set<FiscalPeriod> {
    set p | p in periods :: p.period
  }

  // ---------- Entries ----------

  predicate EntryOk(iso: Iso4217, e: LedgerEntry) {
    && NonBlank(e.accountCode)
    && e.amount.coeff >= 0
    && CurrencyOk(iso, e.currency)
    && (iso[e.currency].Some? ==> FractionDigits(e.amount) <= iso[e.currency].value)
    && OptionalNonBlank(e.description)
    && (e.taxRate.Some? ==> e.taxRate.value.coeff >= 0 && Value(e.taxRate.value) <= 1.0)
  }

  function MakeEntry(iso: Iso4217, raw: LedgerEntry): (r: Result<LedgerEntry>)
    ensures r.Ok? ==> EntryOk(iso, r.value)
    ensures EntryOk(iso, raw) ==> r == Ok(raw)
  {
    var code :- RequireField(raw.accountCode);
    if raw.amount.coeff < 0 then Err(ValueError(NegativeAmount)) else
    var currency :- NormalizeCurrency(iso, raw.currency);
    if iso[currency].Some? && FractionDigits(raw.amount) > iso[currency].value
    then Err(ValueError(TooManyDecimals)) else
    var description :- OptionalField(raw.description);
    if raw.taxRate.Some? && !(raw.taxRate.value.coeff >= 0 && Value(raw.taxRate.value) <= 1.0)
    then Err(ValueError(TaxRateOutOfRange))
    else Ok(raw.(accountCode := code, currency := currency, description := description))
  }

  /** The amounts posted in one currency on one side. */
  function Total(entries: seq<LedgerEntry>, side: PostingSide, currency: string): real {
    if entries == [] then 0.0
    else
      var e := entries[|entries| - 1];
      Total(entries[..|entries| - 1], side, currency)
      + (if e.side == side && e.currency == currency then Value(e.amount) else 0.0)
  }

  function Currencies(entries: seq<LedgerEntry>): set<string> {
    set e | e in entries :: e.currency
  }

  /** At least two entries, and equal debits and credits in every currency. */
  predicate EntriesOk(entries: seq<LedgerEntry>) {
    && |entries| >= 2
    && forall c | c in Currencies(entries) :: Total(entries, Debit, c) == Total(entries, Credit, c)
  }

  // ---------- Transactions ----------

  predicate TransactionOk(iso: Iso4217, t: JournalTransaction) {
    && NonBlank(t.reference) && NonBlank(t.description)
    && (forall i | 0 <= i < |t.entries| :: EntryOk(iso, t.entries[i]))
    && (t.period.Some? ==> FiscalPeriodOk(t.period.value))
    && OptionalNonBlank(t.reversalOf) && t.reversalOf != Some(t.reference)
    && (t.state == Posted ==> EntriesOk(t.entries))
  }

  function MakeTransaction(iso: Iso4217, raw: JournalTransaction): (r: Result<JournalTransaction>)
    requires forall i | 0 <= i < |raw.entries| :: EntryOk(iso, raw.entries[i])
    requires raw.period.Some? ==> FiscalPeriodOk(raw.period.value)
    ensures r.Ok? ==> TransactionOk(iso, r.value)
    ensures TransactionOk(iso, raw) ==> r == Ok(raw)
  {
    var reference :- RequireField(raw.reference);
    var description :- RequireField(raw.description);
    var reversalOf :- OptionalField(raw.reversalOf);
    if reversalOf == Some(reference) then Err(ValueError(SelfReversal))
    else if raw.state == Posted && !EntriesOk(raw.entries) then Err(ValueError(EntriesInvalid))
    else Ok(raw.(reference := reference, description := description, reversalOf := reversalOf))
  }

  // ---------- Books ----------

  predicate KnownAccounts(t: JournalTransaction, codes: set<string>) {
    forall i | 0 <= i < |t.entries| :: t.entries[i].accountCode in codes
  }

  predicate KnownPeriod(t: JournalTransaction, periods: set<FiscalPeriod>) {
    t.period.Some? ==> t.period.value in periods
  }

  /** The parts of a book are values that their own constructors accepted. */
  predicate PartsOk(iso: Iso4217, b: Book) {
    && 1 <= b.startMonth <= 12
    && (forall i | 0 <= i < |b.accounts| :: AccountOk(iso, b.accounts[i]))
    && (forall i | 0 <= i < |b.periods| :: BookPeriodOk(b.periods[i]))
    && (forall i | 0 <= i < |b.transactions| :: TransactionOk(iso, b.transactions[i]))
  }

  predicate PostedToChart(b: Book) {
    forall i | 0 <= i < |b.transactions| ::
      b.transactions[i].state == Posted && KnownAccounts(b.transactions[i], Codes(b.accounts))
  }

  predicate PeriodsKnown(b: Book) {
    forall i | 0 <= i < |b.transactions| :: KnownPeriod(b.transactions[i], FiscalPeriods(b.periods))
  }

  /** Every rule of the Book constructor but the last: transactions may name any period. */
  predicate BookOkButPeriods(iso: Iso4217, b: Book) {
    && NonBlank(b.code) && NonBlank(b.name) && CurrencyOk(iso, b.baseCurrency) && NonBlank(b.legislativePack)
    && PartsOk(iso, b)
    && ChartOk(b.accounts)
    && PeriodsOk(b.periods)
    && PostedToChart(b)
  }

  predicate BookOk(iso: Iso4217, b: Book) {
    BookOkButPeriods(iso, b) && PeriodsKnown(b)
  }

  function MakeBook(iso: Iso4217, raw: Book): (r: Result<Book>)
    requires PartsOk(iso, raw)
    ensures r.Ok? ==> BookOk(iso, r.value)
    ensures BookOk(iso, raw) ==> r == Ok(raw)
    ensures BookOkButPeriods(iso, raw) && !PeriodsKnown(raw) ==> r == Err(ValueError(UnknownPeriod))
  {
    var code :- RequireField(raw.code);
    var name :- RequireField(raw.name);
    var currency :- NormalizeCurrency(iso, raw.baseCurrency);
    var pack :- RequireField(raw.legislativePack);
    if !ChartOk(raw.accounts) then Err(ValueError(ChartInvalid))
    else if !PeriodsOk(raw.periods) then Err(ValueError(PeriodsInvalid))
    else if exists i | 0 <= i < |raw.transactions| :: raw.transactions[i].state != Posted
    then Err(ValueError(NotPosted))
    else if !PostedToChart(raw) then Err(ValueError(UnknownAccount))
    else if !PeriodsKnown(raw) then Err(ValueError(UnknownPeriod))
    else Ok(raw.(code := code, name := name, baseCurrency := currency, legislativePack := pack))
  }
}
