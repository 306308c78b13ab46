/** The ledger XML schema, as a property of element trees on their own, and what the exporter writes. */
module XmlSchema {
  import opened Text
  import opened Model
  import opened Sequences
  import opened Xml

  // ---------- ledger.xsd ----------

  /** The attributes are the required ones and some of the optional ones, and no others. */
  predicate HasAttributes(el: Element, required: set<Attribute>, optional: set<Attribute>) {
    required <= el.attributes.Keys && el.attributes.Keys <= required + optional
  }

  /** The lexical form of xs:integer. */
  predicate IsInteger(s: string) {
    || (s != "" && AllDigits(s))
    || (|s| > 1 && (s[0] == '-' || s[0] == '+') && AllDigits(s[1..]))
  }

  predicate AreIntegers(el: Element, names: set<Attribute>) {
    forall n | n in names && n in el.attributes :: IsInteger(el.attributes[n])
  }

  predicate ValidEntry(el: Element) {
    && el.tag == EntryTag && el.children == []
    && HasAttributes(el, {AccountCodeA, SideA, AmountA, CurrencyA}, {DescriptionA, TaxRateA})
  }

  predicate ValidTransaction(el: Element) {
    && el.tag == TransactionTag
    && HasAttributes(el, {ReferenceA, PostedAtA, StateA, DescriptionA},
                     {ReversalOfA, PeriodFiscalYearA, PeriodQuarterA, PeriodMonthA})
    && AreIntegers(el, {PeriodFiscalYearA, PeriodQuarterA, PeriodMonthA})
    && forall i | 0 <= i < |el.children| :: ValidEntry(el.children[i])
  }

  predicate ValidAccount(el: Element) {
    && el.tag == AccountTag && el.children == []
    && HasAttributes(el, {CodeA, NameA, NormalSideA, CurrencyA, AllowPostingA, ActiveA}, {ParentCodeA})
  }

  predicate ValidPeriod(el: Element) {
    && el.tag == PeriodTag && el.children == []
    && HasAttributes(el, {FiscalYearA, QuarterA, MonthA, StartDateA, EndDateA, StateA}, {})
    && AreIntegers(el, {FiscalYearA, QuarterA, MonthA})
  }

  predicate IsSection(el: Element, tag: Tag) {
    el.tag == tag && HasAttributes(el, {}, {})
  }

  /** `assertValid` passes: the three sections stand in this order. */
  predicate ValidBook(root: Element) {
    && root.tag == BookTag
    && HasAttributes(root, {CodeA, NameA, BaseCurrencyA, LegislativePackA, FiscalStartMonthA}, {})
    && AreIntegers(root, {FiscalStartMonthA})
    && |root.children| == 3
    && IsSection(root.children[0], AccountsTag)
    && IsSection(root.children[1], PeriodsTag)
    && IsSection(root.children[2], TransactionsTag)
    && (forall i | 0 <= i < |root.children[0].children| :: ValidAccount(root.children[0].children[i]))
    && (forall i | 0 <= i < |root.children[1].children| :: ValidPeriod(root.children[1].children[i]))
    && (forall i | 0 <= i < |root.children[2].children| :: ValidTransaction(root.children[2].children[i]))
  }

  // ---------- Optional attributes ----------

  predicate Carries(el: Element, name: Attribute, present: bool) {
    name in el.attributes <==> present
  }

  predicate EntryCarries(el: Element, e: LedgerEntry) {
    Carries(el, DescriptionA, e.description.Some?) && Carries(el, TaxRateA, e.taxRate.Some?)
  }

  predicate TransactionCarries(el: Element, t: JournalTransaction) {
    && Carries(el, ReversalOfA, t.reversalOf.Some?)
    && Carries(el, PeriodFiscalYearA, t.period.Some?)
    && Carries(el, PeriodQuarterA, t.period.Some?)
    && Carries(el, PeriodMonthA, t.period.Some?)
    && |el.children| == |t.entries|
    && forall i | 0 <= i < |t.entries| :: EntryCarries(el.children[i], t.entries[i])
  }

  /** One element for each part, in order, with exactly the optional attributes that the part has. */
  predicate BookCarries(root: Element, b: Book)
    requires ValidBook(root)
  {
    && |root.children[0].children| == |b.accounts|
    && |root.children[1].children| == |b.periods|
    && |root.children[2].children| == |b.transactions|
    && (forall i | 0 <= i < |b.accounts| :: Carries(root.children[0].children[i], ParentCodeA, b.accounts[i].parentCode.Some?))
    && (forall i | 0 <= i < |b.transactions| :: TransactionCarries(root.children[2].children[i], b.transactions[i]))
  }

  // ---------- What the exporter writes ----------

  lemma IntTextIsInteger(n: int)
    ensures IsInteger(IntText(n))
  {}

  lemma EntryConforms(e: LedgerEntry)
    ensures ValidEntry(EntryElement(e)) && EntryCarries(EntryElement(e), e)
  {}

  lemma TransactionConforms(t: JournalTransaction)
    ensures ValidTransaction(TransactionElement(t)) && TransactionCarries(TransactionElement(t), t)
  {
    hide MapSeq, IntText, IsInteger, ValidEntry, EntryCarries, EntryElement, HasAttributes, AreIntegers, Carries, SetPeriod;
    forall i | 0 <= i < |t.entries|
      ensures ValidEntry(MapSeq(t.entries, EntryElement)[i]) && EntryCarries(MapSeq(t.entries, EntryElement)[i], t.entries[i])
    {
      EntryConforms(t.entries[i]);
    }
    TransactionAttributes(t);
    TransactionChildren(t);
  }

  lemma TransactionChildren(t: JournalTransaction)
    ensures TransactionElement(t).children == MapSeq(t.entries, EntryElement) && TransactionElement(t).tag == TransactionTag
  {
    hide MapSeq, IntText, EntryElement;
  }

  lemma TransactionAttributes(t: JournalTransaction)
    ensures HasAttributes(TransactionElement(t), {ReferenceA, PostedAtA, StateA, DescriptionA},
                          {ReversalOfA, PeriodFiscalYearA, PeriodQuarterA, PeriodMonthA})
    ensures AreIntegers(TransactionElement(t), {PeriodFiscalYearA, PeriodQuarterA, PeriodMonthA})
    ensures Carries(TransactionElement(t), ReversalOfA, t.reversalOf.Some?)
    ensures Carries(TransactionElement(t), PeriodFiscalYearA, t.period.Some?)
    ensures Carries(TransactionElement(t), PeriodQuarterA, t.period.Some?)
    ensures Carries(TransactionElement(t), PeriodMonthA, t.period.Some?)
  {
    hide MapSeq, IntText, IsInteger, EntryElement;
    if t.period.Some? {
      IntTextIsInteger(t.period.value.fiscalYear);
      IntTextIsInteger(t.period.value.quarter);
      IntTextIsInteger(t.period.value.month);
    }
  }

  lemma AccountConforms(a: Account)
    ensures ValidAccount(AccountElement(a)) && Carries(AccountElement(a), ParentCodeA, a.parentCode.Some?)
  {}

  lemma PeriodConforms(p: BookPeriod)
    ensures ValidPeriod(PeriodElement(p))
  {
    hide IntText, IsInteger;
    IntTextIsInteger(p.period.fiscalYear);
    IntTextIsInteger(p.period.quarter);
    IntTextIsInteger(p.period.month);
  }

  /** Whatever the book, the exported tree is valid against the schema and has an attribute for each optional
      field that is there and for no other. */
  method ExportValid(b: Book) returns (root: Element)
    ensures ValidBook(root) && BookCarries(root, b)
    ensures root == BookElement(b)
  {
    hide MapSeq, IntText, IsInteger, AccountElement, PeriodElement, TransactionElement;
    hide ValidAccount, ValidPeriod, ValidTransaction, TransactionCarries;
    root := ToXml(b);
    BookConforms(b);
  }

  lemma BookConforms(b: Book)
    ensures ValidBook(BookElement(b)) && BookCarries(BookElement(b), b)
  {
    hide MapSeq, IntText, IsInteger, AccountElement, PeriodElement, TransactionElement;
    hide ValidAccount, ValidPeriod, ValidTransaction, TransactionCarries, Carries;
    IntTextIsInteger(b.startMonth);
    forall i | 0 <= i < |b.accounts|
      ensures ValidAccount(MapSeq(b.accounts, AccountElement)[i])
      ensures Carries(MapSeq(b.accounts, AccountElement)[i], ParentCodeA, b.accounts[i].parentCode.Some?)
    {
      AccountConforms(b.accounts[i]);
    }
    forall i | 0 <= i < |b.periods| ensures ValidPeriod(MapSeq(b.periods, PeriodElement)[i]) {
      PeriodConforms(b.periods[i]);
    }
    forall i | 0 <= i < |b.transactions|
      ensures ValidTransaction(MapSeq(b.transactions, TransactionElement)[i])
      ensures TransactionCarries(MapSeq(b.transactions, TransactionElement)[i], b.transactions[i])
    {
      TransactionConforms(b.transactions[i]);
    }
  }

  // ---------- Absent attributes ----------

  /** An attribute that is absent reads as its default. */
  lemma AbsentReadsAsDefault(iso: Iso4217, el: Element)
    ensures AllowPostingA !in el.attributes ==> ParseAccount(iso, el) == ParseAccount(iso, el.Set(AllowPostingA, "true"))
    ensures ActiveA !in el.attributes ==> ParseAccount(iso, el) == ParseAccount(iso, el.Set(ActiveA, "true"))
    ensures AmountA !in el.attributes ==> ParseEntry(iso, el) == ParseEntry(iso, el.Set(AmountA, "0"))
  {
    hide MakeAccount, MakeEntry, ParseDecimal, ParseRate;
  }

  lemma AbsentStartMonth(iso: Iso4217, el: Element)
    ensures FiscalStartMonthA !in el.attributes ==> BookFromElement(iso, el) == BookFromElement(iso, el.Set(FiscalStartMonthA, "1"))
  {
    hide MakeBook, ParseInt, ParseAccounts, ParsePeriods, ParseTransactions, FirstTagged;
  }

  /** Of the schema's whole numbers the importer reads those without a plus sign, and nothing else. */
  lemma IntegersAreRead(s: string)
    ensures ParseInt(s).Ok? <==> IsInteger(s) && s[0] != '+'
    ensures ParseInt(s).Err? ==> ParseInt(s).fault.ValueError?
  {
    if |s| > 1 && s[0] == '-' { assert !IsDigit(s[0]); }
  }
}
