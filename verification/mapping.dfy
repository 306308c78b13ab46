/** The mapping codec: books and transactions as nested JSON-like mappings, and back. */
module Mapping {
  import opened Text
  import opened Decimals
  import opened Dates
  import opened Model
  import opened Sequences

  /** The keys of the mappings. */
  datatype Field =
    | AccountCode | Accounts | Active | AllowPosting | Amount | BaseCurrency | Code | Currency
    | Description | EndDate | Entries | FiscalCalendar | FiscalYear | LegislativePack | Month
    | Name | NormalSide | ParentCode | Period | Periods | PostedAt | Quarter | Reference
    | ReversalOf | Side | StartDate | StartMonth | State | TaxRate | Transactions

  datatype Json =
    | Null
    | Str(text: string)
    | Num(number: int)
    | Bool(flag: bool)
    | Arr(items: seq<Json>)
    | Obj(fields: map<Field, Json>)

  // ---------- Enumerations ----------

  function SideText(s: PostingSide): string {
    if s == Debit then "Dr" else "Cr"
  }

  function ReadSide(t: string): Result<PostingSide> {
    if t == "Dr" then Ok(Debit) else if t == "Cr" then Ok(Credit) else Err(ValueError(BadText))
  }

  function PeriodStateText(s: PeriodState): string {
    match s case Open => "open" case Closed => "closed" case Locked => "locked"
  }

  function ReadPeriodState(t: string): Result<PeriodState> {
    if t == "open" then Ok(Open) else if t == "closed" then Ok(Closed)
    else if t == "locked" then Ok(Locked) else Err(ValueError(BadText))
  }

  function StateText(s: TransactionState): string {
    match s case Draft => "draft" case Posted => "posted" case Reversed => "reversed"
  }

  function ReadState(t: string): Result<TransactionState> {
    if t == "draft" then Ok(Draft) else if t == "posted" then Ok(Posted)
    else if t == "reversed" then Ok(Reversed) else Err(ValueError(BadText))
  }

  lemma SideRoundTrip(s: PostingSide)
    ensures ReadSide(SideText(s)) == Ok(s) && NonBlank(SideText(s))
  {
    assert "Dr"[0] != "Cr"[0];
  }

  lemma PeriodStateRoundTrip(s: PeriodState)
    ensures ReadPeriodState(PeriodStateText(s)) == Ok(s) && NonBlank(PeriodStateText(s))
  {
    assert "open"[0] == 'o' && "closed"[0] == 'c' && "locked"[0] == 'l';
  }

  lemma StateRoundTrip(s: TransactionState)
    ensures ReadState(StateText(s)) == Ok(s) && NonBlank(StateText(s))
  {
    assert "draft"[0] == 'd' && "posted"[0] == 'p' && "reversed"[0] == 'r';
  }

  // ---------- Reading fields ----------

  /** `data[field]`. */
  function At(data: map<Field, Json>, field: Field): Result<Json> {
    if field in data then Ok(data[field]) else Err(KeyError)
  }

  /** `data.get(field)`. */
  function Lookup(data: map<Field, Json>, field: Field): Json {
    if field in data then data[field] else Null
  }

  function AsMapping(j: Json): Result<map<Field, Json>> {
    if j.Obj? then Ok(j.fields) else Err(TypeError)
  }

  function AsList(j: Json): Result<seq<Json>> {
    if j.Arr? then Ok(j.items) else Err(TypeError)
  }

  function AsInt(j: Json): Result<int> {
    if j.Num? then Ok(j.number) else Err(TypeError)
  }

  /** `require_non_empty_str` on a mapping value. */
  function AsText(j: Json): (r: Result<string>)
    ensures j.Str? && NonBlank(j.text) ==> r == Ok(j.text)
  {
    if j.Str? then RequireField(j.text) else Err(TypeError)
  }

  function AsOptionalText(j: Json): (r: Result<Option<string>>)
    ensures j.Null? ==> r == Ok(None)
    ensures j.Str? && NonBlank(j.text) ==> r == Ok(Some(j.text))
  {
    if j.Null? then Ok(None)
    else
      var t :- AsText(j);
      Ok(Some(t))
  }

  function AsDecimal(j: Json): Result<Dec> {
    if !j.Str? then Err(TypeError)
    else
      match ReadFixed(j.text)
      case None => Err(ArithmeticError)
      case Some(d) => Ok(d)
  }

  function AsOptionalDecimal(j: Json): Result<Option<Dec>> {
    if j.Null? then Ok(None)
    else
      var d :- AsDecimal(j);
      Ok(Some(d))
  }

  function AsDate(j: Json): Result<Date> {
    if !j.Str? then Err(TypeError)
    else
      match ReadDate(j.text)
      case None => Err(ValueError(BadText))
      case Some(d) => Ok(d)
  }

  function OptionalStr(s: Option<string>): Json {
    match s case None => Null case Some(t) => Str(t)
  }

  // ---------- Entries ----------

  function RateText(rate: Option<Dec>): Option<string> {
    match rate case None => None case Some(r) => Some(PrintFixed(r))
  }

  function EntryToMapping(e: LedgerEntry): Json {
    Obj(map[
      AccountCode := Str(e.accountCode),
      Side := Str(SideText(e.side)),
      Amount := Str(PrintFixed(e.amount)),
      Currency := Str(e.currency),
      Description := OptionalStr(e.description),
      TaxRate := OptionalStr(RateText(e.taxRate))
    ])
  }

  function EntryFromMapping(iso: Iso4217, payload: Json): (r: Result<LedgerEntry>)
    ensures r.Ok? ==> EntryOk(iso, r.value)
  {
    var data :- AsMapping(payload);
    var amountField :- At(data, Amount);
    var amount :- AsDecimal(amountField);
    var codeField :- At(data, AccountCode);
    var code :- AsText(codeField);
    var sideField :- At(data, Side);
    var sideText :- AsText(sideField);
    var side :- ReadSide(sideText);
    var currencyField :- At(data, Currency);
    var currency :- AsText(currencyField);
    var description :- AsOptionalText(Lookup(data, Description));
    var taxRate :- AsOptionalDecimal(Lookup(data, TaxRate));
    MakeEntry(iso, LedgerEntry(code, side, amount, currency, description, taxRate))
  }

  /** How an entry comes back from text: the same entry, its decimals in canonical form. */
  function CanonicalEntry(e: LedgerEntry): LedgerEntry {
    e.(amount := Canonical(e.amount),
       taxRate := match e.taxRate case None => None case Some(rate) => Some(Canonical(rate)))
  }

  lemma CanonicalEntryOk(iso: Iso4217, e: LedgerEntry)
    requires EntryOk(iso, e)
    ensures EntryOk(iso, CanonicalEntry(e))
    ensures Value(CanonicalEntry(e).amount) == Value(e.amount)
    ensures CanonicalEntry(CanonicalEntry(e)) == CanonicalEntry(e)
  {
    CanonicalKeeps(e.amount);
    if e.taxRate.Some? { CanonicalKeeps(e.taxRate.value); }
  }

  lemma EntryRoundTrip(iso: Iso4217, e: LedgerEntry)
    requires EntryOk(iso, e)
    ensures EntryFromMapping(iso, EntryToMapping(e)) == Ok(CanonicalEntry(e))
  {
    hide PrintFixed, ReadFixed, Canonical, Value, SideText, ReadSide;
    hide NonBlank, RequireField, MakeEntry, FractionDigits, Upper;
    CanonicalEntryOk(iso, e);
    FixedTextRoundTrip(e.amount);
    if e.taxRate.Some? { FixedTextRoundTrip(e.taxRate.value); }
    SideRoundTrip(e.side);
  }

  // ---------- Transactions ----------

  function PeriodToMapping(p: FiscalPeriod): Json {
    Obj(map[FiscalYear := Num(p.fiscalYear), Quarter := Num(p.quarter), Month := Num(p.month)])
  }

  function PeriodFromMapping(payload: Json): (r: Result<FiscalPeriod>)
    ensures r.Ok? ==> FiscalPeriodOk(r.value)
  {
    var data :- AsMapping(payload);
    var yearField :- At(data, FiscalYear);
    var year :- AsInt(yearField);
    var quarterField :- At(data, Quarter);
    var quarter :- AsInt(quarterField);
    var monthField :- At(data, Month);
    var month :- AsInt(monthField);
    MakeFiscalPeriod(FiscalPeriod(year, quarter, month))
  }

  function OptionalPeriodToMapping(p: Option<FiscalPeriod>): Json {
    match p case None => Null case Some(q) => PeriodToMapping(q)
  }

  function OptionalPeriodFromMapping(payload: Json): (r: Result<Option<FiscalPeriod>>)
    ensures r.Ok? && r.value.Some? ==> FiscalPeriodOk(r.value.value)
  {
    if payload.Null? then Ok(None)
    else
      var p :- PeriodFromMapping(payload);
      Ok(Some(p))
  }

  lemma OptionalPeriodRoundTrip(p: Option<FiscalPeriod>)
    requires p.Some? ==> FiscalPeriodOk(p.value)
    ensures OptionalPeriodFromMapping(OptionalPeriodToMapping(p)) == Ok(p)
  {}

  function EntryDecoder(iso: Iso4217): Json -> Result<LedgerEntry> {
    payload => EntryFromMapping(iso, payload)
  }

  function EntriesFromMapping(iso: Iso4217, items: seq<Json>): (r: Result<seq<LedgerEntry>>)
    ensures r.Ok? ==> forall i | 0 <= i < |r.value| :: EntryOk(iso, r.value[i])
  {
    DecodeAll(items, EntryDecoder(iso))
  }

  lemma EntriesRoundTrip(iso: Iso4217, entries: seq<LedgerEntry>)
    requires forall i | 0 <= i < |entries| :: EntryOk(iso, entries[i])
    ensures EntriesFromMapping(iso, MapSeq(entries, EntryToMapping)) == Ok(MapSeq(entries, CanonicalEntry))
  {
    forall i | 0 <= i < |entries|
      ensures EntryDecoder(iso)(EntryToMapping(entries[i])) == Ok(CanonicalEntry(entries[i]))
    {
      EntryRoundTrip(iso, entries[i]);
    }
    DecodeAllOk(MapSeq(entries, EntryToMapping), EntryDecoder(iso), MapSeq(entries, CanonicalEntry));
  }

  function TransactionToMapping(t: JournalTransaction): Json {
    Obj(map[
      Reference := Str(t.reference),
      PostedAt := Str(t.postedAt),
      Description := Str(t.description),
      Entries := Arr(MapSeq(t.entries, EntryToMapping)),
      Period := OptionalPeriodToMapping(t.period),
      State := Str(StateText(t.state)),
      ReversalOf := OptionalStr(t.reversalOf)
    ])
  }

  /** Timestamps are carried as their isoformat text. */
  function AsTimestamp(j: Json): Result<string> {
    if j.Str? then Ok(j.text) else Err(TypeError)
  }

  function TransactionFromMapping(iso: Iso4217, payload: Json): (r: Result<JournalTransaction>)
    ensures r.Ok? ==> TransactionOk(iso, r.value)
  {
    var data :- AsMapping(payload);
    var referenceField :- At(data, Reference);
    var reference :- AsText(referenceField);
    var postedField :- At(data, PostedAt);
    var postedAt :- AsTimestamp(postedField);
    var descriptionField :- At(data, Description);
    var description :- AsText(descriptionField);
    var entriesField :- At(data, Entries);
    var items :- AsList(entriesField);
    var entries :- EntriesFromMapping(iso, items);
    var period :- OptionalPeriodFromMapping(Lookup(data, Period));
    var stateField :- At(data, State);
    var stateText :- AsText(stateField);
    var state :- ReadState(stateText);
    var reversalOf :- AsOptionalText(Lookup(data, ReversalOf));
    MakeTransaction(iso, JournalTransaction(reference, postedAt, description, entries, period, state, reversalOf))
  }

  function CanonicalTransaction(t: JournalTransaction): JournalTransaction {
    t.(entries := MapSeq(t.entries, CanonicalEntry))
  }

  lemma {:induction false} CanonicalTotal(entries: seq<LedgerEntry>, side: PostingSide, currency: string)
    ensures Total(MapSeq(entries, CanonicalEntry), side, currency) == Total(entries, side, currency)
  {
    hide MapSeq, Value, Canonical;
    if entries == [] {
      MapSeqEmpty(entries, CanonicalEntry);
    } else {
      var n := |entries| - 1;
      CanonicalTotal(entries[..n], side, currency);
      CanonicalKeeps(entries[n].amount);
      MapSeqInit(entries, CanonicalEntry);
    }
  }

  lemma CanonicalEntriesOk(entries: seq<LedgerEntry>)
    ensures EntriesOk(MapSeq(entries, CanonicalEntry)) <==> EntriesOk(entries)
  {
    var canonical := MapSeq(entries, CanonicalEntry);
    assert Currencies(canonical) == Currencies(entries) by {
      forall i | 0 <= i < |entries| ensures canonical[i].currency == entries[i].currency {}
      forall c | c in Currencies(entries) ensures c in Currencies(canonical) {
        var i :| 0 <= i < |entries| && entries[i].currency == c;
        assert canonical[i] in canonical;
      }
    }
    forall c, s ensures Total(canonical, s, c) == Total(entries, s, c) { CanonicalTotal(entries, s, c); }
  }

  lemma CanonicalTransactionOk(iso: Iso4217, t: JournalTransaction)
    requires TransactionOk(iso, t)
    ensures TransactionOk(iso, CanonicalTransaction(t))
  {
    CanonicalEntriesOk(t.entries);
    forall i | 0 <= i < |t.entries| ensures EntryOk(iso, CanonicalEntry(t.entries[i])) {
      CanonicalEntryOk(iso, t.entries[i]);
    }
  }

  lemma TransactionRoundTrip(iso: Iso4217, t: JournalTransaction)
    requires TransactionOk(iso, t)
    ensures TransactionFromMapping(iso, TransactionToMapping(t)) == Ok(CanonicalTransaction(t))
  {
    hide EntriesFromMapping, StateText, ReadState, NonBlank, RequireField, MakeTransaction, EntriesOk, EntryOk;
    hide OptionalPeriodFromMapping, OptionalPeriodToMapping, FiscalPeriodOk, MapSeq;
    CanonicalTransactionOk(iso, t);
    EntriesRoundTrip(iso, t.entries);
    OptionalPeriodRoundTrip(t.period);
    StateRoundTrip(t.state);
  }

  // ---------- Accounts and periods ----------

  function AccountToMapping(a: Account): Json {
    Obj(map[
      Code := Str(a.code),
      Name := Str(a.name),
      NormalSide := Str(SideText(a.normalSide)),
      Currency := Str(a.currency),
      ParentCode := OptionalStr(a.parentCode),
      AllowPosting := Bool(a.allowPosting),
      Active := Bool(a.active)
    ])
  }

  /** `bool(data.get(field, True))`. */
  function Truth(data: map<Field, Json>, field: Field): bool {
    if field !in data then true
    else
      match data[field]
      case Null => false
      case Str(s) => s != ""
      case Num(n) => n != 0
      case Bool(b) => b
      case Arr(items) => items != []
      case Obj(fields) => fields != map[]
  }

  function AccountFromMapping(iso: Iso4217, payload: Json): (r: Result<Account>)
    ensures r.Ok? ==> AccountOk(iso, r.value)
  {
    var data :- AsMapping(payload);
    var codeField :- At(data, Code);
    var code :- AsText(codeField);
    var nameField :- At(data, Name);
    var name :- AsText(nameField);
    var sideField :- At(data, NormalSide);
    var sideText :- AsText(sideField);
    var side :- ReadSide(sideText);
    var currencyField :- At(data, Currency);
    var currency :- AsText(currencyField);
    var parent :- AsOptionalText(Lookup(data, ParentCode));
    MakeAccount(iso, Account(code, name, side, currency, parent, Truth(data, AllowPosting), Truth(data, Active)))
  }

  lemma AccountRoundTrip(iso: Iso4217, a: Account)
    requires AccountOk(iso, a)
    ensures AccountFromMapping(iso, AccountToMapping(a)) == Ok(a)
  {
    hide SideText, ReadSide, NonBlank, RequireField, MakeAccount, Upper;
    SideRoundTrip(a.normalSide);
  }

  function BookPeriodToMapping(p: BookPeriod): Json {
    Obj(map[
      Period := PeriodToMapping(p.period),
      StartDate := Str(DateText(p.startDate)),
      EndDate := Str(DateText(p.endDate)),
      State := Str(PeriodStateText(p.state))
    ])
  }

  function BookPeriodFromMapping(payload: Json): (r: Result<BookPeriod>)
    ensures r.Ok? ==> BookPeriodOk(r.value)
  {
    var data :- AsMapping(payload);
    var periodField :- At(data, Period);
    var period :- PeriodFromMapping(periodField);
    var startField :- At(data, StartDate);
    var start :- AsDate(startField);
    var endField :- At(data, EndDate);
    var end :- AsDate(endField);
    var stateField :- At(data, State);
    var stateText :- AsText(stateField);
    var state :- ReadPeriodState(stateText);
    MakeBookPeriod(BookPeriod(period, start, end, state))
  }

  lemma BookPeriodRoundTrip(p: BookPeriod)
    requires BookPeriodOk(p)
    ensures BookPeriodFromMapping(BookPeriodToMapping(p)) == Ok(p)
  {
    hide DateText, ReadDate, DateLe, PeriodStateText, ReadPeriodState, NonBlank, RequireField, MakeBookPeriod;
    DateTextRoundTrip(p.startDate);
    DateTextRoundTrip(p.endDate);
    PeriodStateRoundTrip(p.state);
    OptionalPeriodRoundTrip(Some(p.period));
  }

  // ---------- Books ----------

  function BookToMapping(b: Book): Json {
    Obj(map[
      Code := Str(b.code),
      Name := Str(b.name),
      BaseCurrency := Str(b.baseCurrency),
      FiscalCalendar := Obj(map[StartMonth := Num(b.startMonth)]),
      LegislativePack := Str(b.legislativePack),
      Accounts := Arr(MapSeq(b.accounts, AccountToMapping)),
      Periods := Arr(MapSeq(b.periods, BookPeriodToMapping)),
      Transactions := Arr(MapSeq(b.transactions, TransactionToMapping))
    ])
  }

  function AccountDecoder(iso: Iso4217): Json -> Result<Account> {
    payload => AccountFromMapping(iso, payload)
  }

  function TransactionDecoder(iso: Iso4217): Json -> Result<JournalTransaction> {
    payload => TransactionFromMapping(iso, payload)
  }

  function AccountsFromMapping(iso: Iso4217, items: seq<Json>): (r: Result<seq<Account>>)
    ensures r.Ok? ==> forall i | 0 <= i < |r.value| :: AccountOk(iso, r.value[i])
  {
    DecodeAll(items, AccountDecoder(iso))
  }

  function PeriodsFromMapping(items: seq<Json>): (r: Result<seq<BookPeriod>>)
    ensures r.Ok? ==> forall i | 0 <= i < |r.value| :: BookPeriodOk(r.value[i])
  {
    DecodeAll(items, BookPeriodFromMapping)
  }

  function TransactionsFromMapping(iso: Iso4217, items: seq<Json>): (r: Result<seq<JournalTransaction>>)
    ensures r.Ok? ==> forall i | 0 <= i < |r.value| :: TransactionOk(iso, r.value[i])
  {
    DecodeAll(items, TransactionDecoder(iso))
  }

  /** `FiscalCalendar(start_month=...)`. */
  function AsStartMonth(data: map<Field, Json>): (r: Result<int>)
    ensures r.Ok? ==> 1 <= r.value <= 12
  {
    var monthField :- At(data, StartMonth);
    var month :- AsInt(monthField);
    if 1 <= month <= 12 then Ok(month) else Err(ValueError(BadPeriod))
  }

  function BookFromMapping(iso: Iso4217, payload: Json): (r: Result<Book>)
    ensures r.Ok? ==> BookOk(iso, r.value)
  {
    var data :- AsMapping(payload);
    var calendarField :- At(data, FiscalCalendar);
    var calendar :- AsMapping(calendarField);
    var codeField :- At(data, Code);
    var code :- AsText(codeField);
    var nameField :- At(data, Name);
    var name :- AsText(nameField);
    var currencyField :- At(data, BaseCurrency);
    var currency :- AsText(currencyField);
    var startMonth :- AsStartMonth(calendar);
    var packField :- At(data, LegislativePack);
    var pack :- AsText(packField);
    var accountsField :- At(data, Accounts);
    var accountItems :- AsList(accountsField);
    var accounts :- AccountsFromMapping(iso, accountItems);
    var periodsField :- At(data, Periods);
    var periodItems :- AsList(periodsField);
    var periods :- PeriodsFromMapping(periodItems);
    var transactionsField :- At(data, Transactions);
    var transactionItems :- AsList(transactionsField);
    var transactions :- TransactionsFromMapping(iso, transactionItems);
    MakeBook(iso, Book(code, name, currency, startMonth, pack, accounts, periods, transactions))
  }

  function CanonicalBook(b: Book): Book {
    b.(transactions := MapSeq(b.transactions, CanonicalTransaction))
  }

  lemma AccountsRoundTrip(iso: Iso4217, accounts: seq<Account>)
    requires forall i | 0 <= i < |accounts| :: AccountOk(iso, accounts[i])
    ensures AccountsFromMapping(iso, MapSeq(accounts, AccountToMapping)) == Ok(accounts)
  {
    hide MapSeq, DecodeAll, AccountOk, AccountToMapping, AccountFromMapping;
    forall i | 0 <= i < |accounts| ensures AccountDecoder(iso)(AccountToMapping(accounts[i])) == Ok(accounts[i]) {
      AccountRoundTrip(iso, accounts[i]);
    }
    DecodeAllOk(MapSeq(accounts, AccountToMapping), AccountDecoder(iso), accounts);
  }

  lemma PeriodsRoundTrip(periods: seq<BookPeriod>)
    requires forall i | 0 <= i < |periods| :: BookPeriodOk(periods[i])
    ensures PeriodsFromMapping(MapSeq(periods, BookPeriodToMapping)) == Ok(periods)
  {
    hide MapSeq, DecodeAll, BookPeriodOk, BookPeriodToMapping, BookPeriodFromMapping;
    forall i | 0 <= i < |periods| ensures BookPeriodFromMapping(BookPeriodToMapping(periods[i])) == Ok(periods[i]) {
      BookPeriodRoundTrip(periods[i]);
    }
    DecodeAllOk(MapSeq(periods, BookPeriodToMapping), BookPeriodFromMapping, periods);
  }

  lemma TransactionsRoundTrip(iso: Iso4217, transactions: seq<JournalTransaction>)
    requires forall i | 0 <= i < |transactions| :: TransactionOk(iso, transactions[i])
    ensures TransactionsFromMapping(iso, MapSeq(transactions, TransactionToMapping))
         == Ok(MapSeq(transactions, CanonicalTransaction))
  {
    hide MapSeq, DecodeAll, TransactionOk, TransactionToMapping, TransactionFromMapping, CanonicalTransaction;
    forall i | 0 <= i < |transactions|
      ensures TransactionDecoder(iso)(TransactionToMapping(transactions[i])) == Ok(CanonicalTransaction(transactions[i]))
    {
      TransactionRoundTrip(iso, transactions[i]);
    }
    DecodeAllOk(MapSeq(transactions, TransactionToMapping), TransactionDecoder(iso),
                MapSeq(transactions, CanonicalTransaction));
  }

  lemma CanonicalBookOk(iso: Iso4217, b: Book)
    requires BookOkButPeriods(iso, b)
    ensures BookOkButPeriods(iso, CanonicalBook(b))
    ensures PeriodsKnown(CanonicalBook(b)) <==> PeriodsKnown(b)
  {
    hide TransactionOk;
    var c := CanonicalBook(b);
    forall i | 0 <= i < |b.transactions|
      ensures TransactionOk(iso, c.transactions[i])
      ensures KnownAccounts(c.transactions[i], Codes(b.accounts))
      ensures KnownPeriod(c.transactions[i], FiscalPeriods(b.periods)) <==> KnownPeriod(b.transactions[i], FiscalPeriods(b.periods))
    {
      CanonicalTransactionOk(iso, b.transactions[i]);
    }
  }

  /** Decoding the mapping of a book: the book itself with its decimals in canonical form; a book whose
      only fault is a transaction naming an unknown period is refused for that. */
  lemma BookMappingDecodes(iso: Iso4217, b: Book)
    requires BookOkButPeriods(iso, b)
    ensures BookFromMapping(iso, BookToMapping(b))
         == if PeriodsKnown(b) then Ok(CanonicalBook(b)) else Err(ValueError(UnknownPeriod))
  {
    hide AccountsFromMapping, PeriodsFromMapping, TransactionsFromMapping, MapSeq, MakeBook, PeriodsKnown;
    hide ChartOk, PeriodsOk, PostedToChart, NonBlank, RequireField, Upper;
    AccountsRoundTrip(iso, b.accounts);
    PeriodsRoundTrip(b.periods);
    TransactionsRoundTrip(iso, b.transactions);
    CanonicalBookOk(iso, b);
    MakeBookDecides(iso, CanonicalBook(b));
  }

  lemma MakeBookDecides(iso: Iso4217, b: Book)
    requires BookOkButPeriods(iso, b)
    ensures MakeBook(iso, b) == if PeriodsKnown(b) then Ok(b) else Err(ValueError(UnknownPeriod))
  {}

  /** For every valid book, decoding its mapping gives the book back. */
  lemma BookRoundTrip(iso: Iso4217, b: Book)
    requires BookOk(iso, b)
    ensures BookFromMapping(iso, BookToMapping(b)) == Ok(CanonicalBook(b))
  {
    BookMappingDecodes(iso, b);
  }
}
