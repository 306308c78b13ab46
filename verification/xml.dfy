/** The XML codec: the element tree that the exporter builds, and the importer's reading of it. */
module Xml {
  import opened Text
  import opened Decimals
  import opened Dates
  import opened Model
  import opened Sequences
  import opened Mapping

  datatype Tag =
    | BookTag | AccountsTag | AccountTag | PeriodsTag | PeriodTag | TransactionsTag | TransactionTag | EntryTag

  datatype Attribute =
    | CodeA | NameA | BaseCurrencyA | LegislativePackA | FiscalStartMonthA | NormalSideA | CurrencyA
    | ParentCodeA | AllowPostingA | ActiveA | FiscalYearA | QuarterA | MonthA | StartDateA | EndDateA
    | StateA | ReferenceA | PostedAtA | DescriptionA | ReversalOfA | PeriodFiscalYearA | PeriodQuarterA
    | PeriodMonthA | AccountCodeA | SideA | AmountA | TaxRateA

  datatype Element = Element(tag: Tag, attributes: map<Attribute, string>, children: seq<Element>) {
    /** `el.get(name)`. */
    function Get(name: Attribute): Option<string> {
      if name in attributes then Some(attributes[name]) else None
    }

    /** `el.get(name, fallback)`. */
    function GetOr(name: Attribute, fallback: string): string {
      if name in attributes then attributes[name] else fallback
    }

    /** `el.set(name, text)`. */
    function Set(name: Attribute, text: string): Element {
      this.(attributes := attributes[name := text])
    }

    function SetOptional(name: Attribute, text: Option<string>): Element {
      match text case None => this case Some(t) => Set(name, t)
    }

    /** `etree.SubElement(el, ...)` once the child is complete. */
    function Append(child: Element): Element {
      this.(children := children + [child])
    }

    /** `el.find(tag)`. */
    function Find(tag: Tag): Option<Element> {
      FirstTagged(children, tag)
    }
  }

  function FirstTagged(elements: seq<Element>, tag: Tag): Option<Element> {
    if elements == [] then None
    else if elements[0].tag == tag then Some(elements[0])
    else FirstTagged(elements[1..], tag)
  }

  /** `str(flag).lower()`. */
  function FlagText(flag: bool): string {
    if flag then "true" else "false"
  }

  lemma FlagRoundTrip(flag: bool)
    ensures FlagText(flag) == "true" <==> flag
  {
    assert "true"[0] != "false"[0];
  }

  // ---------- The tree of a book ----------

  function EntryElement(e: LedgerEntry): Element {
    Element(EntryTag,
            map[AccountCodeA := e.accountCode, SideA := SideText(e.side), AmountA := PrintFixed(e.amount),
                CurrencyA := e.currency], [])
    .SetOptional(DescriptionA, e.description)
    .SetOptional(TaxRateA, RateText(e.taxRate))
  }

  function SetPeriod(el: Element, p: Option<FiscalPeriod>): Element {
    match p
    case None => el
    case Some(q) =>
      el.Set(PeriodFiscalYearA, IntText(q.fiscalYear))
        .Set(PeriodQuarterA, IntText(q.quarter))
        .Set(PeriodMonthA, IntText(q.month))
  }

  function TransactionElement(t: JournalTransaction): Element {
    SetPeriod(
      Element(TransactionTag,
              map[ReferenceA := t.reference, PostedAtA := t.postedAt, StateA := StateText(t.state),
                  DescriptionA := t.description], MapSeq(t.entries, EntryElement))
      .SetOptional(ReversalOfA, t.reversalOf),
      t.period)
  }

  function AccountElement(a: Account): Element {
    Element(AccountTag,
            map[CodeA := a.code, NameA := a.name, NormalSideA := SideText(a.normalSide), CurrencyA := a.currency,
                AllowPostingA := FlagText(a.allowPosting), ActiveA := FlagText(a.active)], [])
    .SetOptional(ParentCodeA, a.parentCode)
  }

  function PeriodElement(p: BookPeriod): Element {
    Element(PeriodTag,
            map[FiscalYearA := IntText(p.period.fiscalYear), QuarterA := IntText(p.period.quarter),
                MonthA := IntText(p.period.month), StartDateA := DateText(p.startDate),
                EndDateA := DateText(p.endDate), StateA := PeriodStateText(p.state)], [])
  }

  function BookElement(b: Book): Element {
    Element(BookTag,
            map[CodeA := b.code, NameA := b.name, BaseCurrencyA := b.baseCurrency,
                LegislativePackA := b.legislativePack, FiscalStartMonthA := IntText(b.startMonth)],
            [Element(AccountsTag, map[], MapSeq(b.accounts, AccountElement)),
             Element(PeriodsTag, map[], MapSeq(b.periods, PeriodElement)),
             Element(TransactionsTag, map[], MapSeq(b.transactions, TransactionElement))])
  }

  // ---------- Building it ----------

  method BuildEntry(e: LedgerEntry) returns (el: Element)
    ensures el == EntryElement(e)
  {
    el := Element(EntryTag,
                  map[AccountCodeA := e.accountCode, SideA := SideText(e.side), AmountA := PrintFixed(e.amount),
                      CurrencyA := e.currency], []);
    if e.description.Some? {
      el := el.Set(DescriptionA, e.description.value);
    }
    if e.taxRate.Some? {
      el := el.Set(TaxRateA, PrintFixed(e.taxRate.value));
    }
  }

  method BuildEntries(entries: seq<LedgerEntry>) returns (children: seq<Element>)
    ensures children == MapSeq(entries, EntryElement)
  {
    children := [];
    for i := 0 to |entries|
      invariant children == MapSeq(entries, EntryElement)[..i]
    {
      var child := BuildEntry(entries[i]);
      children := children + [child];
    }
  }

  method BuildTransaction(t: JournalTransaction) returns (el: Element)
    ensures el == TransactionElement(t)
  {
    var children := BuildEntries(t.entries);
    el := Element(TransactionTag,
                  map[ReferenceA := t.reference, PostedAtA := t.postedAt, StateA := StateText(t.state),
                      DescriptionA := t.description], children);
    if t.reversalOf.Some? {
      el := el.Set(ReversalOfA, t.reversalOf.value);
    }
    if t.period.Some? {
      el := el.Set(PeriodFiscalYearA, IntText(t.period.value.fiscalYear));
      el := el.Set(PeriodQuarterA, IntText(t.period.value.quarter));
      el := el.Set(PeriodMonthA, IntText(t.period.value.month));
    }
  }

  method BuildAccount(a: Account) returns (el: Element)
    ensures el == AccountElement(a)
  {
    el := Element(AccountTag,
                  map[CodeA := a.code, NameA := a.name, NormalSideA := SideText(a.normalSide), CurrencyA := a.currency,
                      AllowPostingA := FlagText(a.allowPosting), ActiveA := FlagText(a.active)], []);
    if a.parentCode.Some? {
      el := el.Set(ParentCodeA, a.parentCode.value);
    }
  }

  method BuildAccounts(accounts: seq<Account>) returns (children: seq<Element>)
    ensures children == MapSeq(accounts, AccountElement)
  {
    hide AccountElement;
    children := [];
    for i := 0 to |accounts|
      invariant children == MapSeq(accounts, AccountElement)[..i]
    {
      var child := BuildAccount(accounts[i]);
      children := children + [child];
    }
  }

  method BuildPeriods(periods: seq<BookPeriod>) returns (children: seq<Element>)
    ensures children == MapSeq(periods, PeriodElement)
  {
    hide PeriodElement;
    children := [];
    for i := 0 to |periods|
      invariant children == MapSeq(periods, PeriodElement)[..i]
    {
      children := children + [PeriodElement(periods[i])];
    }
  }

  method BuildTransactions(transactions: seq<JournalTransaction>) returns (children: seq<Element>)
    ensures children == MapSeq(transactions, TransactionElement)
  {
    hide TransactionElement;
    children := [];
    for i := 0 to |transactions|
      invariant children == MapSeq(transactions, TransactionElement)[..i]
    {
      var child := BuildTransaction(transactions[i]);
      children := children + [child];
    }
  }

  /** Builds the element tree of a book by setting attributes and appending children. */
  method ToXml(b: Book) returns (root: Element)
    ensures root == BookElement(b)
  {
    hide MapSeq, IntText;
    root := Element(BookTag,
                    map[CodeA := b.code, NameA := b.name, BaseCurrencyA := b.baseCurrency,
                        LegislativePackA := b.legislativePack, FiscalStartMonthA := IntText(b.startMonth)], []);
    var accounts := BuildAccounts(b.accounts);
    root := root.Append(Element(AccountsTag, map[], accounts));
    var periods := BuildPeriods(b.periods);
    root := root.Append(Element(PeriodsTag, map[], periods));
    var transactions := BuildTransactions(b.transactions);
    root := root.Append(Element(TransactionsTag, map[], transactions));
  }

  // ---------- Reading it ----------

  /** `int(text)`. */
  function ParseInt(text: string): Result<int> {
    match ReadInt(text) case None => Err(ValueError(BadText)) case Some(n) => Ok(n)
  }

  /** `Decimal(text)`. */
  function ParseDecimal(text: string): Result<Dec> {
    match ReadFixed(text) case None => Err(ArithmeticError) case Some(d) => Ok(d)
  }

  /** `date.fromisoformat(text)`. */
  function ParseDate(text: string): Result<Date> {
    match ReadDate(text) case None => Err(ValueError(BadText)) case Some(d) => Ok(d)
  }

  function ParseRate(text: Option<string>): Result<Option<Dec>> {
    match text
    case None => Ok(None)
    case Some(t) =>
      var d :- ParseDecimal(t);
      Ok(Some(d))
  }

  function ParseEntry(iso: Iso4217, el: Element): (r: Result<LedgerEntry>)
    ensures r.Ok? ==> EntryOk(iso, r.value)
  {
    var side :- ReadSide(el.GetOr(SideA, ""));
    var amount :- ParseDecimal(el.GetOr(AmountA, "0"));
    var taxRate :- ParseRate(el.Get(TaxRateA));
    MakeEntry(iso, LedgerEntry(el.GetOr(AccountCodeA, ""), side, amount, el.GetOr(CurrencyA, ""),
                               el.Get(DescriptionA), taxRate))
  }

  lemma EntryXmlRoundTrip(iso: Iso4217, e: LedgerEntry)
    requires EntryOk(iso, e)
    ensures ParseEntry(iso, EntryElement(e)) == Ok(CanonicalEntry(e))
  {
    hide PrintFixed, ReadFixed, Canonical, Value, SideText, ReadSide, MakeEntry, EntryOk;
    CanonicalEntryOk(iso, e);
    FixedTextRoundTrip(e.amount);
    if e.taxRate.Some? { FixedTextRoundTrip(e.taxRate.value); }
    SideRoundTrip(e.side);
  }

  function ParsePeriod(year: string, quarter: string, month: string): (r: Result<FiscalPeriod>)
    ensures r.Ok? ==> FiscalPeriodOk(r.value)
  {
    var y :- ParseInt(year);
    var q :- ParseInt(quarter);
    var m :- ParseInt(month);
    MakeFiscalPeriod(FiscalPeriod(y, q, m))
  }

  function ParseTransactionPeriod(el: Element): (r: Result<Option<FiscalPeriod>>)
    ensures r.Ok? && r.value.Some? ==> FiscalPeriodOk(r.value.value)
  {
    if el.Get(PeriodFiscalYearA).None? then Ok(None)
    else
      var p :- ParsePeriod(el.GetOr(PeriodFiscalYearA, "0"), el.GetOr(PeriodQuarterA, "0"), el.GetOr(PeriodMonthA, "0"));
      Ok(Some(p))
  }

  function EntryParser(iso: Iso4217): Element -> Result<LedgerEntry> {
    el => ParseEntry(iso, el)
  }

  function ParseEntries(iso: Iso4217, elements: seq<Element>): (r: Result<seq<LedgerEntry>>)
    ensures r.Ok? ==> forall i | 0 <= i < |r.value| :: EntryOk(iso, r.value[i])
  {
    DecodeAll(elements, EntryParser(iso))
  }

  function ParseTransaction(iso: Iso4217, el: Element): (r: Result<JournalTransaction>)
    ensures r.Ok? ==> TransactionOk(iso, r.value)
  {
    var period :- ParseTransactionPeriod(el);
    var state :- ReadState(el.GetOr(StateA, ""));
    var entries :- ParseEntries(iso, el.children);
    MakeTransaction(iso, JournalTransaction(
      el.GetOr(ReferenceA, ""), el.GetOr(PostedAtA, ""), el.GetOr(DescriptionA, ""), entries, period, state,
      el.Get(ReversalOfA)))
  }

  lemma EntriesXmlRoundTrip(iso: Iso4217, entries: seq<LedgerEntry>)
    requires forall i | 0 <= i < |entries| :: EntryOk(iso, entries[i])
    ensures ParseEntries(iso, MapSeq(entries, EntryElement)) == Ok(MapSeq(entries, CanonicalEntry))
  {
    forall i | 0 <= i < |entries|
      ensures EntryParser(iso)(EntryElement(entries[i])) == Ok(CanonicalEntry(entries[i]))
    {
      EntryXmlRoundTrip(iso, entries[i]);
    }
    DecodeAllOk(MapSeq(entries, EntryElement), EntryParser(iso), MapSeq(entries, CanonicalEntry));
  }

  lemma TransactionXmlRoundTrip(iso: Iso4217, t: JournalTransaction)
    requires TransactionOk(iso, t)
    ensures ParseTransaction(iso, TransactionElement(t)) == Ok(CanonicalTransaction(t))
  {
    hide ParseEntries, StateText, ReadState, MakeTransaction, EntriesOk, EntryOk, IntText, ReadInt, MapSeq, NonBlank;
    CanonicalTransactionOk(iso, t);
    EntriesXmlRoundTrip(iso, t.entries);
    StateRoundTrip(t.state);
    PeriodAttributesRoundTrip(t);
  }

  lemma PeriodAttributesRoundTrip(t: JournalTransaction)
    requires t.period.Some? ==> FiscalPeriodOk(t.period.value)
    ensures ParseTransactionPeriod(TransactionElement(t)) == Ok(t.period)
  {
    hide ReadInt, MapSeq, StateText;
    if t.period.Some? {
      IntRoundTrip(t.period.value.fiscalYear);
      IntRoundTrip(t.period.value.quarter);
      IntRoundTrip(t.period.value.month);
    }
  }

  lemma IntRoundTrip(n: int)
    ensures ReadInt(IntText(n)) == Some(n)
  {}

  function ParseAccount(iso: Iso4217, el: Element): (r: Result<Account>)
    ensures r.Ok? ==> AccountOk(iso, r.value)
  {
    var side :- ReadSide(el.GetOr(NormalSideA, ""));
    MakeAccount(iso, Account(
      el.GetOr(CodeA, ""), el.GetOr(NameA, ""), side, el.GetOr(CurrencyA, ""), el.Get(ParentCodeA),
      el.GetOr(AllowPostingA, "true") == "true", el.GetOr(ActiveA, "true") == "true"))
  }

  lemma AccountXmlRoundTrip(iso: Iso4217, a: Account)
    requires AccountOk(iso, a)
    ensures ParseAccount(iso, AccountElement(a)) == Ok(a)
  {
    hide SideText, ReadSide, FlagText, MakeAccount, AccountOk;
    SideRoundTrip(a.normalSide);
    FlagRoundTrip(a.allowPosting);
    FlagRoundTrip(a.active);
  }

  function ParseBookPeriod(el: Element): (r: Result<BookPeriod>)
    ensures r.Ok? ==> BookPeriodOk(r.value)
  {
    var period :- ParsePeriod(el.GetOr(FiscalYearA, "0"), el.GetOr(QuarterA, "0"), el.GetOr(MonthA, "0"));
    var start :- ParseDate(el.GetOr(StartDateA, ""));
    var end :- ParseDate(el.GetOr(EndDateA, ""));
    var state :- ReadPeriodState(el.GetOr(StateA, ""));
    MakeBookPeriod(BookPeriod(period, start, end, state))
  }

  lemma BookPeriodXmlRoundTrip(p: BookPeriod)
    requires BookPeriodOk(p)
    ensures ParseBookPeriod(PeriodElement(p)) == Ok(p)
  {
    hide IntText, ReadInt, DateText, ReadDate, DateLe, PeriodStateText, ReadPeriodState;
    IntRoundTrip(p.period.fiscalYear);
    IntRoundTrip(p.period.quarter);
    IntRoundTrip(p.period.month);
    DateTextRoundTrip(p.startDate);
    DateTextRoundTrip(p.endDate);
    PeriodStateRoundTrip(p.state);
  }

  /** The children of the named section; an absent section has none. */
  function Section(root: Element, tag: Tag): seq<Element> {
    match root.Find(tag) case None => [] case Some(el) => el.children
  }

  function AccountParser(iso: Iso4217): Element -> Result<Account> {
    el => ParseAccount(iso, el)
  }

  function TransactionParser(iso: Iso4217): Element -> Result<JournalTransaction> {
    el => ParseTransaction(iso, el)
  }

  function ParseAccounts(iso: Iso4217, elements: seq<Element>): (r: Result<seq<Account>>)
    ensures r.Ok? ==> forall i | 0 <= i < |r.value| :: AccountOk(iso, r.value[i])
  {
    DecodeAll(elements, AccountParser(iso))
  }

  function ParsePeriods(elements: seq<Element>): (r: Result<seq<BookPeriod>>)
    ensures r.Ok? ==> forall i | 0 <= i < |r.value| :: BookPeriodOk(r.value[i])
  {
    DecodeAll(elements, ParseBookPeriod)
  }

  function ParseTransactions(iso: Iso4217, elements: seq<Element>): (r: Result<seq<JournalTransaction>>)
    ensures r.Ok? ==> forall i | 0 <= i < |r.value| :: TransactionOk(iso, r.value[i])
  {
    DecodeAll(elements, TransactionParser(iso))
  }

  function BookFromElement(iso: Iso4217, root: Element): (r: Result<Book>)
    ensures r.Ok? ==> BookOk(iso, r.value)
  {
    var startMonth :- ParseInt(root.GetOr(FiscalStartMonthA, "1"));
    if !(1 <= startMonth <= 12) then Err(ValueError(BadPeriod)) else
    var accounts :- ParseAccounts(iso, Section(root, AccountsTag));
    var periods :- ParsePeriods(Section(root, PeriodsTag));
    var transactions :- ParseTransactions(iso, Section(root, TransactionsTag));
    MakeBook(iso, Book(root.GetOr(CodeA, ""), root.GetOr(NameA, ""), root.GetOr(BaseCurrencyA, ""), startMonth,
                       root.GetOr(LegislativePackA, ""), accounts, periods, transactions))
  }

  lemma SectionsRoundTrip(iso: Iso4217, b: Book)
    requires PartsOk(iso, b)
    ensures ParseAccounts(iso, MapSeq(b.accounts, AccountElement)) == Ok(b.accounts)
    ensures ParsePeriods(MapSeq(b.periods, PeriodElement)) == Ok(b.periods)
    ensures ParseTransactions(iso, MapSeq(b.transactions, TransactionElement))
         == Ok(MapSeq(b.transactions, CanonicalTransaction))
  {
    hide ParseAccount, ParseBookPeriod, ParseTransaction, AccountOk, BookPeriodOk, TransactionOk;
    hide AccountElement, PeriodElement, TransactionElement, CanonicalTransaction;
    forall i | 0 <= i < |b.accounts| ensures AccountParser(iso)(AccountElement(b.accounts[i])) == Ok(b.accounts[i]) {
      AccountXmlRoundTrip(iso, b.accounts[i]);
    }
    DecodeAllOk(MapSeq(b.accounts, AccountElement), AccountParser(iso), b.accounts);
    forall i | 0 <= i < |b.periods| ensures ParseBookPeriod(PeriodElement(b.periods[i])) == Ok(b.periods[i]) {
      BookPeriodXmlRoundTrip(b.periods[i]);
    }
    DecodeAllOk(MapSeq(b.periods, PeriodElement), ParseBookPeriod, b.periods);
    forall i | 0 <= i < |b.transactions|
      ensures TransactionParser(iso)(TransactionElement(b.transactions[i])) == Ok(CanonicalTransaction(b.transactions[i]))
    {
      TransactionXmlRoundTrip(iso, b.transactions[i]);
    }
    DecodeAllOk(MapSeq(b.transactions, TransactionElement), TransactionParser(iso),
                MapSeq(b.transactions, CanonicalTransaction));
  }

  lemma FirstOfThree(a: Element, b: Element, c: Element)
    ensures FirstTagged([a, b, c], a.tag) == Some(a)
    ensures a.tag != b.tag ==> FirstTagged([a, b, c], b.tag) == Some(b)
    ensures a.tag != c.tag && b.tag != c.tag ==> FirstTagged([a, b, c], c.tag) == Some(c)
  {
    assert [a, b, c][1..] == [b, c] && [b, c][1..] == [c];
    assert FirstTagged([c], c.tag) == Some(c);
    assert FirstTagged([b, c], c.tag) == if b.tag == c.tag then Some(b) else Some(c);
  }

  lemma SectionsFound(b: Book)
    ensures Section(BookElement(b), AccountsTag) == MapSeq(b.accounts, AccountElement)
    ensures Section(BookElement(b), PeriodsTag) == MapSeq(b.periods, PeriodElement)
    ensures Section(BookElement(b), TransactionsTag) == MapSeq(b.transactions, TransactionElement)
  {
    hide MapSeq, IntText, AccountElement, PeriodElement, TransactionElement;
    var c := BookElement(b).children;
    FirstOfThree(c[0], c[1], c[2]);
  }

  /** For every valid book, reading its element tree gives the book back. */
  lemma BookXmlRoundTrip(iso: Iso4217, b: Book)
    requires BookOk(iso, b)
    ensures BookFromElement(iso, BookElement(b)) == Ok(CanonicalBook(b))
  {
    hide ParseAccounts, ParsePeriods, ParseTransactions, Section, MapSeq, MakeBook, IntText, ReadInt;
    hide ChartOk, PeriodsOk, PostedToChart, PeriodsKnown, NonBlank, Upper;
    SectionsRoundTrip(iso, b);
    SectionsFound(b);
    IntRoundTrip(b.startMonth);
    CanonicalBookOk(iso, b);
    MakeBookDecides(iso, CanonicalBook(b));
  }

  /** The two codecs agree on every valid book. */
  lemma CodecsAgree(iso: Iso4217, b: Book)
    requires BookOk(iso, b)
    ensures BookFromElement(iso, BookElement(b)) == BookFromMapping(iso, BookToMapping(b))
  {
    BookXmlRoundTrip(iso, b);
    BookRoundTrip(iso, b);
  }
}
