/** The shape of the mappings, and what the decoder says of payloads that lack a key or have one of the wrong
    type. */
module Payloads {
  import opened Text
  import opened Model
  import opened Sequences
  import opened Mapping

  const ENTRY_KEYS := {AccountCode, Side, Amount, Currency}
  const TRANSACTION_KEYS := {Reference, PostedAt, Description, Entries, State}
  const ACCOUNT_KEYS := {Code, Name, NormalSide, Currency}
  const PERIOD_KEYS := {Period, StartDate, EndDate, State}
  const BOOK_KEYS := {Code, Name, BaseCurrency, FiscalCalendar, LegislativePack, Accounts, Periods, Transactions}

  /** The payload without one key. */
  function Without(payload: Json, f: Field): Json
    requires payload.Obj?
  {
    Obj(payload.fields - {f})
  }

  /** The payload with None under one key. */
  function WithNull(payload: Json, f: Field): Json
    requires payload.Obj?
  {
    Obj(payload.fields[f := Null])
  }

  /** The mappings have these keys and no others, optional ones included. */
  lemma MappingKeys(e: LedgerEntry, t: JournalTransaction, a: Account, p: BookPeriod, b: Book)
    ensures EntryToMapping(e).fields.Keys == ENTRY_KEYS + {Description, TaxRate}
    ensures TransactionToMapping(t).fields.Keys == TRANSACTION_KEYS + {Period, ReversalOf}
    ensures AccountToMapping(a).fields.Keys == ACCOUNT_KEYS + {ParentCode, AllowPosting, Active}
    ensures BookPeriodToMapping(p).fields.Keys == PERIOD_KEYS
    ensures BookToMapping(b).fields.Keys == BOOK_KEYS
  {
    hide EntryToMapping, TransactionToMapping, AccountToMapping, BookPeriodToMapping, BookToMapping;
    EntryKeys(e);
    TransactionKeys(t);
    AccountKeys(a);
    PeriodKeys(p);
    BookKeys(b);
  }

  lemma EntryKeys(e: LedgerEntry)
    ensures EntryToMapping(e).fields.Keys == ENTRY_KEYS + {Description, TaxRate}
  {
    hide SideText, RateText, OptionalStr, Decimals.PrintFixed;
  }

  lemma TransactionKeys(t: JournalTransaction)
    ensures TransactionToMapping(t).fields.Keys == TRANSACTION_KEYS + {Period, ReversalOf}
  {
    hide MapSeq, OptionalPeriodToMapping, OptionalStr, StateText;
  }

  lemma AccountKeys(a: Account)
    ensures AccountToMapping(a).fields.Keys == ACCOUNT_KEYS + {ParentCode, AllowPosting, Active}
  {
    hide SideText, OptionalStr;
  }

  lemma PeriodKeys(p: BookPeriod)
    ensures BookPeriodToMapping(p).fields.Keys == PERIOD_KEYS
  {
    hide PeriodToMapping, PeriodStateText, Dates.DateText;
  }

  lemma BookKeys(b: Book)
    ensures BookToMapping(b).fields.Keys == BOOK_KEYS
  {
    hide MapSeq;
  }

  // ---------- Missing keys ----------

  lemma EntryNeedsKey(iso: Iso4217, e: LedgerEntry, f: Field)
    requires EntryOk(iso, e) && f in ENTRY_KEYS
    ensures EntryFromMapping(iso, Without(EntryToMapping(e), f)) == Err(KeyError)
    ensures EntryFromMapping(iso, WithNull(EntryToMapping(e), f)) == Err(TypeError)
  {
    hide Decimals.PrintFixed, Decimals.ReadFixed, Decimals.Value, SideText, ReadSide;
    hide NonBlank, RequireField, MakeEntry, Decimals.FractionDigits, Upper;
    Decimals.FixedTextRoundTrip(e.amount);
    if e.taxRate.Some? { Decimals.FixedTextRoundTrip(e.taxRate.value); }
    SideRoundTrip(e.side);
  }

  /** The decoder looks at the values of the required keys, and at the optional ones through `get`. */
  lemma EntryDecoded(iso: Iso4217, e: LedgerEntry, data: map<Field, Json>)
    requires EntryOk(iso, e)
    requires forall f | f in ENTRY_KEYS :: f in data && data[f] == EntryToMapping(e).fields[f]
    requires Lookup(data, Description) == OptionalStr(e.description) && Lookup(data, TaxRate) == OptionalStr(RateText(e.taxRate))
    ensures EntryFromMapping(iso, Obj(data)) == Ok(CanonicalEntry(e))
  {
    hide Decimals.PrintFixed, Decimals.ReadFixed, Decimals.Value, Decimals.Canonical, SideText, ReadSide;
    hide NonBlank, RequireField, MakeEntry, Decimals.FractionDigits, Upper;
    CanonicalEntryOk(iso, e);
    Decimals.FixedTextRoundTrip(e.amount);
    if e.taxRate.Some? { Decimals.FixedTextRoundTrip(e.taxRate.value); }
    SideRoundTrip(e.side);
  }

  /** Optional keys may be missing. */
  lemma EntryWithoutOptional(iso: Iso4217, e: LedgerEntry)
    requires EntryOk(iso, e)
    ensures EntryFromMapping(iso, Without(EntryToMapping(e), Description)) == Ok(CanonicalEntry(e).(description := None))
    ensures EntryFromMapping(iso, Without(EntryToMapping(e), TaxRate)) == Ok(CanonicalEntry(e).(taxRate := None))
  {
    hide EntryFromMapping, Decimals.PrintFixed, SideText, Decimals.Value, Decimals.Canonical, NonBlank, CurrencyOk;
    EntryDecoded(iso, e.(description := None), Without(EntryToMapping(e), Description).fields);
    EntryDecoded(iso, e.(taxRate := None), Without(EntryToMapping(e), TaxRate).fields);
  }

  lemma AccountNeedsKey(iso: Iso4217, a: Account, f: Field)
    requires AccountOk(iso, a) && f in ACCOUNT_KEYS
    ensures AccountFromMapping(iso, Without(AccountToMapping(a), f)) == Err(KeyError)
    ensures AccountFromMapping(iso, WithNull(AccountToMapping(a), f)) == Err(TypeError)
  {
    hide SideText, ReadSide, NonBlank, RequireField, MakeAccount, Upper, Truth;
    SideRoundTrip(a.normalSide);
  }

  lemma AccountDecoded(iso: Iso4217, a: Account, data: map<Field, Json>)
    requires AccountOk(iso, a)
    requires forall f | f in ACCOUNT_KEYS :: f in data && data[f] == AccountToMapping(a).fields[f]
    requires Lookup(data, ParentCode) == OptionalStr(a.parentCode)
    requires Truth(data, AllowPosting) == a.allowPosting && Truth(data, Active) == a.active
    ensures AccountFromMapping(iso, Obj(data)) == Ok(a)
  {
    hide SideText, ReadSide, NonBlank, RequireField, MakeAccount, Upper, Truth;
    SideRoundTrip(a.normalSide);
  }

  lemma AccountWithoutOptional(iso: Iso4217, a: Account)
    requires AccountOk(iso, a)
    ensures AccountFromMapping(iso, Without(AccountToMapping(a), ParentCode)) == Ok(a.(parentCode := None))
    ensures AccountFromMapping(iso, Without(AccountToMapping(a), AllowPosting)) == Ok(a.(allowPosting := true))
    ensures AccountFromMapping(iso, Without(AccountToMapping(a), Active)) == Ok(a.(active := true))
  {
    hide AccountFromMapping, AccountToMapping, AccountOk;
    AccountKeys(a);
    WithoutParent(iso, a);
    WithoutAllowPosting(iso, a);
    WithoutActive(iso, a);
  }

  lemma WithoutParent(iso: Iso4217, a: Account)
    requires AccountOk(iso, a)
    ensures AccountFromMapping(iso, Without(AccountToMapping(a), ParentCode)) == Ok(a.(parentCode := None))
  {
    hide AccountFromMapping, SideText, NonBlank, CurrencyOk;
    AccountDecoded(iso, a.(parentCode := None), Without(AccountToMapping(a), ParentCode).fields);
  }

  lemma WithoutAllowPosting(iso: Iso4217, a: Account)
    requires AccountOk(iso, a)
    ensures AccountFromMapping(iso, Without(AccountToMapping(a), AllowPosting)) == Ok(a.(allowPosting := true))
  {
    hide AccountFromMapping, SideText, NonBlank, CurrencyOk;
    AccountDecoded(iso, a.(allowPosting := true), Without(AccountToMapping(a), AllowPosting).fields);
  }

  lemma WithoutActive(iso: Iso4217, a: Account)
    requires AccountOk(iso, a)
    ensures AccountFromMapping(iso, Without(AccountToMapping(a), Active)) == Ok(a.(active := true))
  {
    hide AccountFromMapping, SideText, NonBlank, CurrencyOk;
    AccountDecoded(iso, a.(active := true), Without(AccountToMapping(a), Active).fields);
  }

  /** `bool(data.get(field, True))`: only an empty or zero value is false, and None. */
  lemma TruthMeans(data: map<Field, Json>, f: Field)
    ensures !Truth(data, f) <==> f in data && data[f] in {Null, Str(""), Num(0), Bool(false), Arr([]), Obj(map[])}
  {}

  lemma TransactionNeedsKey(iso: Iso4217, t: JournalTransaction, f: Field)
    requires TransactionOk(iso, t) && f in TRANSACTION_KEYS
    ensures TransactionFromMapping(iso, Without(TransactionToMapping(t), f)) == Err(KeyError)
    ensures TransactionFromMapping(iso, WithNull(TransactionToMapping(t), f)) == Err(TypeError)
  {
    hide EntriesFromMapping, StateText, ReadState, NonBlank, RequireField, MakeTransaction, EntriesOk, EntryOk;
    hide OptionalPeriodFromMapping, OptionalPeriodToMapping, FiscalPeriodOk, MapSeq;
    EntriesRoundTrip(iso, t.entries);
    OptionalPeriodRoundTrip(t.period);
    StateRoundTrip(t.state);
  }

  lemma TransactionDecoded(iso: Iso4217, t: JournalTransaction, data: map<Field, Json>)
    requires TransactionOk(iso, t)
    requires forall f | f in TRANSACTION_KEYS :: f in data && data[f] == TransactionToMapping(t).fields[f]
    requires Lookup(data, Period) == OptionalPeriodToMapping(t.period) && Lookup(data, ReversalOf) == OptionalStr(t.reversalOf)
    ensures TransactionFromMapping(iso, Obj(data)) == Ok(CanonicalTransaction(t))
  {
    hide EntriesFromMapping, StateText, ReadState, NonBlank, RequireField, MakeTransaction, EntriesOk, EntryOk;
    hide OptionalPeriodFromMapping, OptionalPeriodToMapping, FiscalPeriodOk, MapSeq;
    CanonicalTransactionOk(iso, t);
    EntriesRoundTrip(iso, t.entries);
    OptionalPeriodRoundTrip(t.period);
    StateRoundTrip(t.state);
  }

  lemma TransactionWithoutOptional(iso: Iso4217, t: JournalTransaction)
    requires TransactionOk(iso, t)
    ensures TransactionFromMapping(iso, Without(TransactionToMapping(t), Period)) == Ok(CanonicalTransaction(t).(period := None))
    ensures TransactionFromMapping(iso, Without(TransactionToMapping(t), ReversalOf))
         == Ok(CanonicalTransaction(t).(reversalOf := None))
  {
    hide TransactionFromMapping, StateText, NonBlank, EntriesOk, EntryOk, FiscalPeriodOk, MapSeq, PeriodToMapping;
    TransactionDecoded(iso, t.(period := None), Without(TransactionToMapping(t), Period).fields);
    TransactionDecoded(iso, t.(reversalOf := None), Without(TransactionToMapping(t), ReversalOf).fields);
  }

  lemma BookPeriodNeedsKey(p: BookPeriod, f: Field)
    requires BookPeriodOk(p) && f in PERIOD_KEYS
    ensures BookPeriodFromMapping(Without(BookPeriodToMapping(p), f)) == Err(KeyError)
    ensures BookPeriodFromMapping(WithNull(BookPeriodToMapping(p), f)) == Err(TypeError)
  {
    hide Dates.DateText, Dates.ReadDate, Dates.DateLe, PeriodStateText, ReadPeriodState, NonBlank, RequireField, MakeBookPeriod;
    Dates.DateTextRoundTrip(p.startDate);
    Dates.DateTextRoundTrip(p.endDate);
    PeriodStateRoundTrip(p.state);
    OptionalPeriodRoundTrip(Some(p.period));
  }

  lemma BookNeedsKey(iso: Iso4217, b: Book, f: Field)
    requires BookOk(iso, b) && f in BOOK_KEYS
    ensures BookFromMapping(iso, Without(BookToMapping(b), f)) == Err(KeyError)
    ensures BookFromMapping(iso, WithNull(BookToMapping(b), f)) == Err(TypeError)
  {
    hide BookFromMapping, BookToMapping, BookOk;
    BookWithoutKey(iso, b, f);
    BookWithNull(iso, b, f);
  }

  lemma BookWithoutKey(iso: Iso4217, b: Book, f: Field)
    requires BookOk(iso, b) && f in BOOK_KEYS
    ensures BookFromMapping(iso, Without(BookToMapping(b), f)) == Err(KeyError)
  {
    hide AccountsFromMapping, PeriodsFromMapping, TransactionsFromMapping, MapSeq, MakeBook, PeriodsKnown;
    hide ChartOk, PeriodsOk, PostedToChart, NonBlank, RequireField, Upper;
    AccountsRoundTrip(iso, b.accounts);
    PeriodsRoundTrip(b.periods);
    TransactionsRoundTrip(iso, b.transactions);
  }

  lemma BookWithNull(iso: Iso4217, b: Book, f: Field)
    requires BookOk(iso, b) && f in BOOK_KEYS
    ensures BookFromMapping(iso, WithNull(BookToMapping(b), f)) == Err(TypeError)
  {
    hide AccountsFromMapping, PeriodsFromMapping, TransactionsFromMapping, MapSeq, MakeBook, PeriodsKnown;
    hide ChartOk, PeriodsOk, PostedToChart, NonBlank, RequireField, Upper;
    AccountsRoundTrip(iso, b.accounts);
    PeriodsRoundTrip(b.periods);
    TransactionsRoundTrip(iso, b.transactions);
  }

  /** Nothing but a mapping is decoded. */
  lemma OnlyMappings(iso: Iso4217, payload: Json)
    requires !payload.Obj?
    ensures EntryFromMapping(iso, payload) == Err(TypeError)
    ensures TransactionFromMapping(iso, payload) == Err(TypeError)
    ensures AccountFromMapping(iso, payload) == Err(TypeError)
    ensures BookPeriodFromMapping(payload) == Err(TypeError)
    ensures BookFromMapping(iso, payload) == Err(TypeError)
  {}

  // ---------- Texts that are no value ----------

  /** Each enumeration reads its own texts only. */
  lemma EnumsExact(text: string, side: PostingSide, period: PeriodState, state: TransactionState)
    ensures ReadSide(text) == Ok(side) <==> text == SideText(side)
    ensures ReadPeriodState(text) == Ok(period) <==> text == PeriodStateText(period)
    ensures ReadState(text) == Ok(state) <==> text == StateText(state)
    ensures ReadSide(text).Ok? <==> text in {"Dr", "Cr"}
    ensures ReadPeriodState(text).Ok? <==> text in {"open", "closed", "locked"}
    ensures ReadState(text).Ok? <==> text in {"draft", "posted", "reversed"}
    ensures ReadSide(text).Err? ==> ReadSide(text).fault.ValueError?
    ensures ReadPeriodState(text).Err? ==> ReadPeriodState(text).fault.ValueError?
    ensures ReadState(text).Err? ==> ReadState(text).fault.ValueError?
  {
    SideRoundTrip(side);
    PeriodStateRoundTrip(period);
    StateRoundTrip(state);
  }
}
