/** Loading a book from the tables, and what it gives back. */
module Loading {
  import opened Text
  import opened Dates
  import opened Model
  import opened Sorting
  import opened Sequences
  import opened Mapping
  import opened Schema
  import opened Commands
  import opened Ledgers
  import opened Refinement
  import opened Charts
  import opened Periods

  // ---------- Row orders ----------

  /** ORDER BY code. */
  predicate AccountRowLe(a: AccountRow, b: AccountRow) { TextLe(a.code, b.code) }

  /** ORDER BY fiscal_year, quarter, month. */
  predicate NumbersLe(y: int, q: int, m: int, y': int, q': int, m': int) {
    y < y' || (y == y' && (q < q' || (q == q' && m <= m')))
  }

  /** ORDER BY start_date, end_date, fiscal_year, quarter, month: dates compare as text. */
  predicate PeriodRowLe(a: PeriodRow, b: PeriodRow) {
    || TextLt(a.startDate, b.startDate)
    || (a.startDate == b.startDate
        && (TextLt(a.endDate, b.endDate)
            || (a.endDate == b.endDate && NumbersLe(a.fiscalYear, a.quarter, a.month, b.fiscalYear, b.quarter, b.month))))
  }

  /** ORDER BY posted_at, reference. */
  predicate TransactionRowLe(a: TransactionRow, b: TransactionRow) {
    TextLt(a.postedAt, b.postedAt) || (a.postedAt == b.postedAt && TextLe(a.reference, b.reference))
  }

  // ---------- The payload ----------

  function AccountPayload(r: AccountRow): Json {
    Obj(map[
      Code := Str(r.code),
      Name := Str(r.name),
      NormalSide := Str(r.normalSide),
      Currency := Str(r.currency),
      ParentCode := OptionalStr(r.parentCode),
      AllowPosting := Bool(r.allowPosting != 0),
      Active := Bool(r.active != 0)
    ])
  }

  function BookPeriodPayload(r: PeriodRow): Json {
    Obj(map[
      Period := Obj(map[FiscalYear := Num(r.fiscalYear), Quarter := Num(r.quarter), Month := Num(r.month)]),
      StartDate := Str(r.startDate),
      EndDate := Str(r.endDate),
      State := Str(r.state)
    ])
  }

  type EntryIndex = map<string, seq<EntryRow>>

  /** The lines of every listed transaction, by reference. */
  function EntriesByReference(db: Db, code: string, rows: seq<TransactionRow>): EntryIndex {
    map r | r in rows :: r.reference := EntryRows(db, code, r.reference)
  }

  function TransactionPayloadsOf(rows: seq<TransactionRow>, entries: EntryIndex): seq<Json>
    requires forall r | r in rows :: r.reference in entries
  {
    if rows == [] then []
    else [TransactionPayload(rows[0], entries[rows[0].reference])] + TransactionPayloadsOf(rows[1..], entries)
  }

  function BookPayload(
    code: string, book: BookRow, accounts: seq<AccountRow>, periods: seq<PeriodRow>, transactions: seq<TransactionRow>,
    entries: EntryIndex): Json
    requires forall r | r in transactions :: r.reference in entries
  {
    Obj(map[
      Code := Str(code),
      Name := Str(book.name),
      BaseCurrency := Str(book.baseCurrency),
      FiscalCalendar := Obj(map[StartMonth := Num(book.fiscalStartMonth)]),
      LegislativePack := Str(book.legislativePack),
      Accounts := Arr(MapSeq(accounts, AccountPayload)),
      Periods := Arr(MapSeq(periods, BookPeriodPayload)),
      Transactions := Arr(TransactionPayloadsOf(transactions, entries))
    ])
  }

  datatype LoadOutcome =
    | Loaded(book: Book)
    | NoSuchBook
    | IntegrityError(fault: Fault)
    | InvariantError
    | Escaped(fault: Fault)

  /** Decoding faults of the two classes the loader catches become integrity errors; the book is then
      checked once more. */
  function Checked(decoded: Result<Book>): LoadOutcome {
    match decoded
    case Err(ValueError(reason)) => IntegrityError(ValueError(reason))
    case Err(TypeError) => IntegrityError(TypeError)
    case Err(fault) => Escaped(fault)
    case Ok(book) =>
      if !ChartOk(book.accounts) then InvariantError
      else if exists i | 0 <= i < |book.transactions| :: !EntriesOk(book.transactions[i].entries) then InvariantError
      else Loaded(book)
  }

  function Load(iso: Iso4217, db: Db, code: string): LoadOutcome {
    var bookRows := Select(db.books, code);
    if bookRows == [] then NoSuchBook
    else
      var accounts := Sort(Select(db.accounts, code), AccountRowLe);
      var periods := Sort(Select(db.periods, code), PeriodRowLe);
      var transactions := Sort(Select(db.transactions, code), TransactionRowLe);
      var entries := EntriesByReference(db, code, transactions);
      Checked(BookFromMapping(iso, BookPayload(code, bookRows[0], accounts, periods, transactions, entries)))
  }

  // ---------- The order of a loaded book ----------

  predicate AccountLe(a: Account, b: Account) { TextLe(a.code, b.code) }

  /** By dates in the calendar's order. */
  predicate PeriodLe(a: BookPeriod, b: BookPeriod) {
    || DateLt(a.startDate, b.startDate)
    || (a.startDate == b.startDate
        && (DateLt(a.endDate, b.endDate)
            || (a.endDate == b.endDate
                && NumbersLe(a.period.fiscalYear, a.period.quarter, a.period.month,
                             b.period.fiscalYear, b.period.quarter, b.period.month))))
  }

  predicate TransactionLe(a: JournalTransaction, b: JournalTransaction) {
    TextLt(a.postedAt, b.postedAt) || (a.postedAt == b.postedAt && TextLe(a.reference, b.reference))
  }

  function Ordered(b: Book): Book {
    b.(accounts := Sort(b.accounts, AccountLe), periods := Sort(b.periods, PeriodLe),
       transactions := Sort(b.transactions, TransactionLe))
  }

  lemma TextLtIsStrict(a: string, b: string)
    ensures TextLt(a, b) <==> !TextLe(b, a)
  {
    TextLeTotal(a, b);
  }

  lemma PeriodRowsOrdered(a: BookPeriod, b: BookPeriod)
    ensures PeriodRowLe(PeriodRowOf(a), PeriodRowOf(b)) == PeriodLe(a, b)
  {
    hide DateText, DateLe, TextLe, PeriodStateText, NumbersLe;
    TextOrderOfDates(a.startDate, b.startDate);
    TextOrderOfDates(a.endDate, b.endDate);
  }

  lemma TextOrderOfDates(a: Date, b: Date)
    ensures TextLt(DateText(a), DateText(b)) <==> DateLt(a, b)
    ensures DateText(a) == DateText(b) <==> a == b
  {
    hide DateText, DateLe, TextLe;
    TextLtIsStrict(DateText(a), DateText(b));
    DateTextOrder(b, a);
    if DateText(a) == DateText(b) { DateTextInjective(a, b); }
  }

  lemma RowsSorted(b: Book)
    ensures Sort(MapSeq(b.accounts, AccountRowOf), AccountRowLe) == MapSeq(Ordered(b).accounts, AccountRowOf)
    ensures Sort(MapSeq(b.periods, PeriodRowOf), PeriodRowLe) == MapSeq(Ordered(b).periods, PeriodRowOf)
    ensures Sort(MapSeq(b.transactions, TransactionRowOf), TransactionRowLe) == MapSeq(Ordered(b).transactions, TransactionRowOf)
  {
    hide Sort, MapSeq, TextLe, PeriodRowLe, PeriodLe, PeriodRowOf, SideText, StateText;
    SortMapped(b.accounts, AccountRowOf, AccountLe, AccountRowLe);
    forall x, y | x in b.periods && y in b.periods ensures PeriodRowLe(PeriodRowOf(x), PeriodRowOf(y)) == PeriodLe(x, y) {
      PeriodRowsOrdered(x, y);
    }
    SortMapped(b.periods, PeriodRowOf, PeriodLe, PeriodRowLe);
    SortMapped(b.transactions, TransactionRowOf, TransactionLe, TransactionRowLe);
  }

  lemma SortedParts(b: Book)
    ensures multiset(Ordered(b).accounts) == multiset(b.accounts)
    ensures multiset(Ordered(b).periods) == multiset(b.periods)
    ensures multiset(Ordered(b).transactions) == multiset(b.transactions)
    ensures forall a :: a in Ordered(b).accounts <==> a in b.accounts
    ensures forall p :: p in Ordered(b).periods <==> p in b.periods
    ensures forall t :: t in Ordered(b).transactions <==> t in b.transactions
  {
    SameElements(Ordered(b).accounts, b.accounts);
    SameElements(Ordered(b).periods, b.periods);
    SameElements(Ordered(b).transactions, b.transactions);
  }

  /** The rules of a book do not depend on the order of its parts. */
  lemma OrderedOk(iso: Iso4217, b: Book)
    requires BookOkButPeriods(iso, b)
    ensures BookOkButPeriods(iso, Ordered(b))
    ensures PeriodsKnown(Ordered(b)) <==> PeriodsKnown(b)
  {
    hide Sort, AccountOk, BookPeriodOk, TransactionOk, ChartOk, PeriodsOk, KnownAccounts, KnownPeriod, Codes, FiscalPeriods, NonBlank;
    SortedParts(b);
    ChartPermuted(b.accounts, Ordered(b).accounts);
    PeriodsPermuted(b.periods, Ordered(b).periods);
    var c := Ordered(b);
    forall i | 0 <= i < |c.accounts| ensures AccountOk(iso, c.accounts[i]) { assert c.accounts[i] in c.accounts; }
    forall i | 0 <= i < |c.periods| ensures BookPeriodOk(c.periods[i]) { assert c.periods[i] in c.periods; }
    forall i | 0 <= i < |c.transactions|
      ensures TransactionOk(iso, c.transactions[i]) && c.transactions[i].state == Posted
      ensures KnownAccounts(c.transactions[i], Codes(b.accounts))
      ensures PeriodsKnown(b) ==> KnownPeriod(c.transactions[i], FiscalPeriods(b.periods))
    {
      assert c.transactions[i] in c.transactions;
    }
    forall i | 0 <= i < |b.transactions|
      ensures PeriodsKnown(c) ==> KnownPeriod(b.transactions[i], FiscalPeriods(b.periods))
    {
      assert b.transactions[i] in b.transactions;
    }
  }

  // ---------- The payload of a stored book ----------

  lemma MapSeqCompose<A, B, C>(s: seq<A>, f: A -> B, g: B -> C, h: A -> C)
    requires forall x :: g(f(x)) == h(x)
    ensures MapSeq(MapSeq(s, f), g) == MapSeq(s, h)
  {}

  lemma AccountPayloads(accounts: seq<Account>)
    ensures MapSeq(MapSeq(accounts, AccountRowOf), AccountPayload) == MapSeq(accounts, AccountToMapping)
  {
    hide SideText;
    forall a ensures AccountPayload(AccountRowOf(a)) == AccountToMapping(a) {}
    MapSeqCompose(accounts, AccountRowOf, AccountPayload, AccountToMapping);
  }

  lemma PeriodPayloads(periods: seq<BookPeriod>)
    ensures MapSeq(MapSeq(periods, PeriodRowOf), BookPeriodPayload) == MapSeq(periods, BookPeriodToMapping)
  {
    hide DateText, PeriodStateText;
    forall p ensures BookPeriodPayload(PeriodRowOf(p)) == BookPeriodToMapping(p) {}
    MapSeqCompose(periods, PeriodRowOf, BookPeriodPayload, BookPeriodToMapping);
  }

  /** The index holds the lines of every one of these transactions. */
  ghost predicate Indexes(entries: EntryIndex, transactions: seq<JournalTransaction>) {
    forall t | t in transactions :: t.reference in entries && entries[t.reference] == EntryRowsOf(t.entries)
  }

  lemma {:induction false} TransactionPayloadsAre(transactions: seq<JournalTransaction>, entries: EntryIndex)
    requires Indexes(entries, transactions)
    ensures var rows := MapSeq(transactions, TransactionRowOf);
            && (forall r | r in rows :: r.reference in entries)
            && TransactionPayloadsOf(rows, entries) == MapSeq(transactions, TransactionToMapping)
  {
    hide TransactionPayload, TransactionToMapping, EntryRowsOf, StateText;
    if transactions != [] {
      var t, rest := transactions[0], transactions[1..];
      assert t in transactions && forall x | x in rest :: x in transactions;
      TransactionPayloadsAre(rest, entries);
      TransactionPayloads(t);
      assert MapSeq(transactions, TransactionRowOf)[1..] == MapSeq(rest, TransactionRowOf);
      forall r | r in MapSeq(transactions, TransactionRowOf) ensures r.reference in entries {
        if r != TransactionRowOf(t) { assert r in MapSeq(rest, TransactionRowOf); }
      }
    }
  }

  lemma FoundAnywhere(transactions: seq<JournalTransaction>, t: JournalTransaction)
    requires DistinctReferences(transactions) && t in transactions
    ensures Find(transactions, t.reference) == Some(t)
  {
    var i :| 0 <= i < |transactions| && transactions[i] == t;
    var u := Find(transactions, t.reference).value;
    var k :| 0 <= k < |transactions| && transactions[k] == u;
    assert i == k;
  }

  lemma IndexBuilt(db: Db, ledger: Ledger, code: string, transactions: seq<JournalTransaction>)
    requires Represents(db, ledger) && code in ledger && DistinctReferences(ledger[code].transactions)
    requires forall t | t in transactions :: t in ledger[code].transactions
    ensures Indexes(EntriesByReference(db, code, MapSeq(transactions, TransactionRowOf)), transactions)
  {
    hide Represents, EntryRows, EntryRowsOf, StateText, DistinctReferences;
    var rows := MapSeq(transactions, TransactionRowOf);
    var entries := EntriesByReference(db, code, rows);
    forall t | t in transactions ensures t.reference in entries && entries[t.reference] == EntryRowsOf(t.entries) {
      var i :| 0 <= i < |transactions| && transactions[i] == t;
      assert rows[i] in rows && rows[i].reference == t.reference;
      FoundAnywhere(ledger[code].transactions, t);
      StoredLines(db, ledger, code, t);
    }
  }

  /** The rows of a stored book make exactly the mapping of the book, its parts in order. */
  lemma PayloadIsMapping(db: Db, ledger: Ledger, code: string)
    requires Represents(db, ledger) && code in ledger && ledger[code].code == code
    requires DistinctReferences(ledger[code].transactions)
    ensures var b := Ordered(ledger[code]);
            var rows := MapSeq(b.transactions, TransactionRowOf);
            var entries := EntriesByReference(db, code, rows);
            BookPayload(code, BookRowOf(b), MapSeq(b.accounts, AccountRowOf), MapSeq(b.periods, PeriodRowOf), rows, entries)
            == BookToMapping(b)
  {
    hide Represents, DistinctReferences, Sort, MapSeq, TransactionPayloadsOf, EntriesByReference, Indexes;
    var b := Ordered(ledger[code]);
    SortedParts(ledger[code]);
    AccountPayloads(b.accounts);
    PeriodPayloads(b.periods);
    IndexBuilt(db, ledger, code, b.transactions);
    TransactionPayloadsAre(b.transactions, EntriesByReference(db, code, MapSeq(b.transactions, TransactionRowOf)));
  }

  lemma CheckedOk(iso: Iso4217, b: Book)
    requires BookOk(iso, b)
    ensures Checked(Ok(b)) == Loaded(b)
  {
    hide ChartOk, EntriesOk, AccountOk, BookPeriodOk, EntryOk, PeriodsOk;
    forall i | 0 <= i < |b.transactions| ensures EntriesOk(b.transactions[i].entries) {
      assert TransactionOk(iso, b.transactions[i]);
    }
  }

  lemma StoredRows(db: Db, ledger: Ledger, code: string)
    requires Represents(db, ledger)
    ensures Select(db.books, code) == BooksAt(ledger, code)
    ensures Select(db.accounts, code) == AccountsAt(ledger, code)
    ensures Select(db.periods, code) == PeriodsAt(ledger, code)
    ensures Select(db.transactions, code) == TransactionsAt(ledger, code)
  {}

  /** Loading from tables that represent a ledger: the stored book, its accounts by code, its periods by
      date, its transactions by timestamp text and reference, every transaction's entries in their own
      order. It fails only for a book that is not there, or one with a transaction that names a period
      the book lacks. */
  lemma LoadsStored(iso: Iso4217, db: Db, ledger: Ledger, code: string)
    requires Represents(db, ledger) && LedgerOk(iso, ledger)
    ensures Load(iso, db, code)
         == if code !in ledger then NoSuchBook
            else if PeriodsKnown(ledger[code]) then Loaded(CanonicalBook(Ordered(ledger[code])))
            else IntegrityError(ValueError(UnknownPeriod))
  {
    hide Represents, Select, Sort, MapSeq, BookPayload, EntriesByReference, BookFromMapping, BookToMapping, Checked;
    hide DistinctReferences, BookOkButPeriods, PeriodsKnown, BookRowOf;
    StoredRows(db, ledger, code);
    if code in ledger {
      var b := ledger[code];
      RowsSorted(b);
      PayloadIsMapping(db, ledger, code);
      OrderedOk(iso, b);
      BookMappingDecodes(iso, Ordered(b));
      OrderedRow(b);
      CheckedFault();
      if PeriodsKnown(b) {
        CanonicalBookOk(iso, Ordered(b));
        CheckedOk(iso, CanonicalBook(Ordered(b)));
      }
    }
  }

  lemma OrderedRow(b: Book)
    ensures BookRowOf(Ordered(b)) == BookRowOf(b)
  {}

  lemma CheckedFault()
    ensures Checked(Err(ValueError(UnknownPeriod))) == IntegrityError(ValueError(UnknownPeriod))
  {}

  /** After every run: load_book succeeds on exactly the created books all of whose transactions name
      no period or one of the book's, and returns the created book with everything appended to it. */
  lemma LoadAfterRun(iso: Iso4217, commands: seq<Command>, code: string)
    requires CommandsOk(iso, commands)
    ensures var ledger := LedgerRun(commands);
            var outcome := Load(iso, Run(iso, EMPTY, commands), code);
            && (outcome == NoSuchBook <==> code !in ledger)
            && (outcome.Loaded? <==> code in ledger && PeriodsKnown(ledger[code]))
            && (outcome.Loaded? ==> outcome.book == CanonicalBook(Ordered(ledger[code])) && BookOk(iso, outcome.book))
            && (code in ledger && !PeriodsKnown(ledger[code]) ==> outcome == IntegrityError(ValueError(UnknownPeriod)))
  {
    hide Represents, BookOkButPeriods, PeriodsKnown, Load, Run, LedgerRun, CommandsOk;
    RunRefines(iso, commands);
    LoadsStored(iso, Run(iso, EMPTY, commands), LedgerRun(commands), code);
    if code in LedgerRun(commands) {
      OrderedOk(iso, LedgerRun(commands)[code]);
      CanonicalBookOk(iso, Ordered(LedgerRun(commands)[code]));
    }
  }

  // ---------- Which runs load ----------

  predicate AllPeriodsKnown(ledger: Ledger) {
    forall code | code in ledger :: PeriodsKnown(ledger[code])
  }

  /** What a caller can check before the call: an appended transaction names no period or one of its book. */
  predicate NamesPeriod(ledger: Ledger, c: Command) {
    c.AppendTransactionCommand? && c.book in ledger ==> KnownPeriod(c.transaction, FiscalPeriods(ledger[c.book].periods))
  }

  lemma KnownUpdate(ledger: Ledger, code: string, b: Book)
    requires code in ledger ==> (PeriodsKnown(b) ==> PeriodsKnown(ledger[code]))
    ensures AllPeriodsKnown(ledger[code := b]) <==> AllPeriodsKnown(ledger) && PeriodsKnown(b)
  {
    hide PeriodsKnown;
    var after := ledger[code := b];
    if AllPeriodsKnown(after) {
      assert code in after;
      forall other | other in ledger ensures PeriodsKnown(ledger[other]) {
        assert other in after;
      }
    }
  }

  lemma KnownAppend(b: Book, t: JournalTransaction)
    ensures PeriodsKnown(b.(transactions := b.transactions + [t]))
       <==> PeriodsKnown(b) && KnownPeriod(t, FiscalPeriods(b.periods))
  {
    hide KnownPeriod, FiscalPeriods;
    var all := b.transactions + [t];
    assert forall i | 0 <= i < |b.transactions| :: all[i] == b.transactions[i];
    assert all[|b.transactions|] == t;
  }

  lemma PostPeriods(ledger: Ledger, code: string, t: JournalTransaction)
    requires code in ledger && LedgerPost(ledger, code, t).1 == Done
    ensures AllPeriodsKnown(LedgerPost(ledger, code, t).0)
       <==> AllPeriodsKnown(ledger) && KnownPeriod(t, FiscalPeriods(ledger[code].periods))
  {
    hide PeriodsKnown, KnownPeriod, FiscalPeriods, References;
    KnownAppend(ledger[code], t);
    KnownUpdate(ledger, code, ledger[code].(transactions := ledger[code].transactions + [t]));
    if AllPeriodsKnown(ledger) { assert PeriodsKnown(ledger[code]); }
  }

  /** A reversal is dated in its original's period. */
  lemma ReversePeriods(ledger: Ledger, code: string, originalRef: string, reversalRef: string)
    requires LedgerReverse(ledger, code, originalRef, reversalRef).1 == Done
    ensures AllPeriodsKnown(LedgerReverse(ledger, code, originalRef, reversalRef).0) <==> AllPeriodsKnown(ledger)
  {
    hide LedgerPost, ReversalRefusal, RequireText, KnownPeriod, FiscalPeriods, PeriodsKnown, MapSeq;
    var t := Find(ledger[code].transactions, originalRef).value;
    var contra := ReversalPost(ledger, code, originalRef, reversalRef).value;
    PostPeriods(ledger, code, contra);
    SamePeriod(t, contra, FiscalPeriods(ledger[code].periods));
    MemberKnown(ledger[code], t);
    if AllPeriodsKnown(ledger) { assert PeriodsKnown(ledger[code]); }
  }

  lemma MemberKnown(b: Book, t: JournalTransaction)
    requires t in b.transactions
    ensures PeriodsKnown(b) ==> KnownPeriod(t, FiscalPeriods(b.periods))
  {
    hide KnownPeriod, FiscalPeriods;
    var i :| 0 <= i < |b.transactions| && b.transactions[i] == t;
  }

  lemma SamePeriod(t: JournalTransaction, u: JournalTransaction, periods: set<FiscalPeriod>)
    requires t.period == u.period
    ensures KnownPeriod(t, periods) <==> KnownPeriod(u, periods)
  {}

  /** After a successful command every book names known periods if and only if every book did before and the
      command names one too: create_book and append_reversal always do, append_transaction does not check. */
  lemma StepPeriods(iso: Iso4217, ledger: Ledger, c: Command)
    requires CommandOk(iso, c) && LedgerApply(ledger, c).1 == Done
    ensures AllPeriodsKnown(LedgerApply(ledger, c).0) <==> AllPeriodsKnown(ledger) && NamesPeriod(ledger, c)
  {
    hide LedgerPost, LedgerReverse, PeriodsKnown, KnownPeriod, FiscalPeriods, AllPeriodsKnown, DistinctReferences;
    hide BookOkButPeriods, TransactionOk;
    match c
    case CreateBookCommand(b, _) => KnownUpdate(ledger, b.code, b);
    case AppendTransactionCommand(book, t, _) => PostPeriods(ledger, book, t);
    case CreateReversalCommand(book, original, reversal, _) => ReversePeriods(ledger, book, original, reversal);
    case AppendResultCommand(_, _, _, _, _) =>
    case SnapshotCommand(_, _) =>
  }

  lemma RefusedChangesNothing(ledger: Ledger, c: Command)
    ensures LedgerApply(ledger, c).1 != Done ==> LedgerApply(ledger, c).0 == ledger
  {
    hide LedgerCreate, LedgerAppend, LedgerReverse;
    match c
    case CreateBookCommand(b, _) => RefusedCreate(ledger, b);
    case AppendTransactionCommand(book, t, _) => RefusedAppend(ledger, book, t);
    case CreateReversalCommand(book, original, reversal, _) => RefusedReverse(ledger, book, original, reversal);
    case AppendResultCommand(_, _, _, _, _) =>
    case SnapshotCommand(_, _) =>
  }

  lemma RefusedCreate(ledger: Ledger, b: Book)
    ensures LedgerCreate(ledger, b).1 != Done ==> LedgerCreate(ledger, b).0 == ledger
  {
    hide DistinctReferences;
  }

  lemma RefusedPost(ledger: Ledger, code: string, t: JournalTransaction)
    requires code in ledger
    ensures LedgerPost(ledger, code, t).1 != Done ==> LedgerPost(ledger, code, t).0 == ledger
  {
    hide References;
  }

  lemma RefusedAppend(ledger: Ledger, code: string, t: JournalTransaction)
    ensures LedgerAppend(ledger, code, t).1 != Done ==> LedgerAppend(ledger, code, t).0 == ledger
  {
    hide LedgerPost, FirstUnknown, Codes;
    if code in ledger { RefusedPost(ledger, code, t); }
  }

  lemma RefusedReverse(ledger: Ledger, code: string, originalRef: string, reversalRef: string)
    ensures LedgerReverse(ledger, code, originalRef, reversalRef).1 != Done ==>
              LedgerReverse(ledger, code, originalRef, reversalRef).0 == ledger
  {
    hide LedgerPost, ReversalRefusal, ReversalPost;
    if ReversalRefusal(ledger, code, originalRef, reversalRef).None? {
      RefusedPost(ledger, code, ReversalPost(ledger, code, originalRef, reversalRef).value);
    }
  }

  /** Every append that succeeded named no period or one of its book. */
  ghost predicate PeriodsNamed(commands: seq<Command>) {
    forall i | 0 <= i < |commands| && LedgerApply(LedgerRun(commands[..i]), commands[i]).1 == Done ::
      NamesPeriod(LedgerRun(commands[..i]), commands[i])
  }

  lemma PeriodsNamedInit(commands: seq<Command>)
    requires commands != []
    ensures var n := |commands| - 1;
            PeriodsNamed(commands) <==>
              && PeriodsNamed(commands[..n])
              && (LedgerApply(LedgerRun(commands[..n]), commands[n]).1 == Done ==> NamesPeriod(LedgerRun(commands[..n]), commands[n]))
  {
    hide LedgerApply, NamesPeriod, LedgerRun;
    var n := |commands| - 1;
    assert forall i | 0 <= i < n :: commands[..n][..i] == commands[..i] && commands[..n][i] == commands[i];
  }

  lemma {:induction false} RunPeriods(iso: Iso4217, commands: seq<Command>)
    requires CommandsOk(iso, commands)
    ensures AllPeriodsKnown(LedgerRun(commands)) <==> PeriodsNamed(commands)
  {
    hide LedgerApply, NamesPeriod, CommandOk, PeriodsKnown, PeriodsNamed;
    if commands == [] {
      NothingNamed();
    } else {
      var n := |commands| - 1;
      RunPeriods(iso, commands[..n]);
      PeriodsNamedInit(commands);
      RefusedChangesNothing(LedgerRun(commands[..n]), commands[n]);
      if LedgerApply(LedgerRun(commands[..n]), commands[n]).1 == Done {
        StepPeriods(iso, LedgerRun(commands[..n]), commands[n]);
      }
    }
  }

  lemma NothingNamed()
    ensures PeriodsNamed([])
  {}

  /** Every book of a run's store loads if and only if every append that succeeded named no period or one of
      its book; reversals inherit theirs. */
  lemma EveryBookLoads(iso: Iso4217, commands: seq<Command>)
    requires CommandsOk(iso, commands)
    ensures PeriodsNamed(commands)
       <==> forall code | code in LedgerRun(commands) :: Load(iso, Run(iso, EMPTY, commands), code).Loaded?
  {
    hide PeriodsKnown, PeriodsNamed, Load, Run, LedgerRun, CommandsOk;
    RunPeriods(iso, commands);
    forall code | code in LedgerRun(commands)
      ensures Load(iso, Run(iso, EMPTY, commands), code).Loaded? <==> PeriodsKnown(LedgerRun(commands)[code])
    {
      LoadAfterRun(iso, commands, code);
    }
  }

  // ---------- Orders ----------

  lemma OrdersAreTotal()
    ensures TotalOrder(AccountLe) && TotalOrder(PeriodLe) && TotalOrder(TransactionLe)
  {
    forall a: Account, b: Account ensures AccountLe(a, b) || AccountLe(b, a) { TextLeTotal(a.code, b.code); }
    forall a: Account, b: Account, c: Account | AccountLe(a, b) && AccountLe(b, c) ensures AccountLe(a, c) {
      TextLeTransitive(a.code, b.code, c.code);
    }
    forall a: JournalTransaction, b: JournalTransaction ensures TransactionLe(a, b) || TransactionLe(b, a) {
      TextLeTotal(a.postedAt, b.postedAt);
      TextLeTotal(a.reference, b.reference);
    }
    forall a: JournalTransaction, b: JournalTransaction, c: JournalTransaction | TransactionLe(a, b) && TransactionLe(b, c)
      ensures TransactionLe(a, c)
    {
      TransactionLeTransitive(a, b, c);
    }
  }

  lemma TransactionLeTransitive(a: JournalTransaction, b: JournalTransaction, c: JournalTransaction)
    requires TransactionLe(a, b) && TransactionLe(b, c)
    ensures TransactionLe(a, c)
  {
    hide TextLe;
    TextLeTotal(a.postedAt, b.postedAt);
    TextLeTotal(a.postedAt, c.postedAt);
    if TextLe(a.postedAt, b.postedAt) && TextLe(b.postedAt, c.postedAt) { TextLeTransitive(a.postedAt, b.postedAt, c.postedAt); }
    if TextLe(a.reference, b.reference) && TextLe(b.reference, c.reference) { TextLeTransitive(a.reference, b.reference, c.reference); }
    TextLeTotal(b.postedAt, c.postedAt);
  }

  /** Accounts by code; periods by start, then end; transactions by timestamp text, then reference. */
  ghost predicate InLoadOrder(b: Book) {
    && (forall i, j | 0 <= i < j < |b.accounts| :: TextLe(b.accounts[i].code, b.accounts[j].code))
    && (forall i, j | 0 <= i < j < |b.periods| ::
          && DateLe(b.periods[i].startDate, b.periods[j].startDate)
          && (b.periods[i].startDate == b.periods[j].startDate ==> DateLe(b.periods[i].endDate, b.periods[j].endDate)))
    && (forall i, j | 0 <= i < j < |b.transactions| ::
          && TextLe(b.transactions[i].postedAt, b.transactions[j].postedAt)
          && (b.transactions[i].postedAt == b.transactions[j].postedAt ==>
                TextLe(b.transactions[i].reference, b.transactions[j].reference)))
  }

  lemma OrderedInLoadOrder(b: Book, loaded: Book)
    requires loaded == Ordered(b)
    ensures InLoadOrder(loaded)
  {
    hide Sort, TextLe, DateLe;
    LoadedInOrder(b);
    forall i, j | 0 <= i < j < |loaded.transactions|
      ensures TextLe(loaded.transactions[i].postedAt, loaded.transactions[j].postedAt)
    {
      assert TransactionLe(loaded.transactions[i], loaded.transactions[j]);
      TextLeTotal(loaded.transactions[i].postedAt, loaded.transactions[i].postedAt);
    }
    forall i, j | 0 <= i < j < |loaded.periods|
      ensures DateLe(loaded.periods[i].startDate, loaded.periods[j].startDate)
      ensures loaded.periods[i].startDate == loaded.periods[j].startDate ==>
                DateLe(loaded.periods[i].endDate, loaded.periods[j].endDate)
    {
      assert PeriodLe(loaded.periods[i], loaded.periods[j]);
      DatesTotal(loaded.periods[i].startDate, loaded.periods[j].startDate);
      DatesTotal(loaded.periods[i].endDate, loaded.periods[j].endDate);
    }
  }

  lemma DatesTotal(a: Date, b: Date)
    ensures DateLe(a, b) || DateLe(b, a)
    ensures DateLe(a, a)
  {}

  /** Whatever is in the tables, a loaded book satisfies every rule of a book, so the checks after decoding never
      find anything, and exactly the faults of the two caught classes are integrity errors. */
  lemma LoadIsSafe(iso: Iso4217, db: Db, code: string)
    ensures var outcome := Load(iso, db, code);
            && (outcome.Loaded? ==> BookOk(iso, outcome.book))
            && !outcome.InvariantError?
            && (outcome.IntegrityError? ==> outcome.fault.ValueError? || outcome.fault.TypeError?)
            && (outcome.Escaped? ==> !outcome.fault.ValueError? && !outcome.fault.TypeError?)
            && (outcome.NoSuchBook? <==> !HasBook(db, code))
  {
    hide Select, Sort, BookPayload, BookFromMapping, EntriesByReference;
    forall b | BookOk(iso, b) ensures Checked(Ok(b)) == Loaded(b) {
      CheckedOk(iso, b);
    }
    CheckedFaults();
  }

  lemma CheckedFaults()
    ensures forall f :: Checked(Err(f)) == if f.ValueError? || f.TypeError? then IntegrityError(f) else Escaped(f)
  {}

  /** The parts of a loaded book are in order, and none is lost or added. */
  lemma LoadedInOrder(b: Book)
    ensures SortedBy(Ordered(b).accounts, AccountLe) && SortedBy(Ordered(b).periods, PeriodLe)
    ensures SortedBy(Ordered(b).transactions, TransactionLe)
    ensures multiset(Ordered(b).accounts) == multiset(b.accounts)
    ensures multiset(Ordered(b).periods) == multiset(b.periods)
    ensures multiset(Ordered(b).transactions) == multiset(b.transactions)
  {
    OrdersAreTotal();
    SortSorted(b.accounts, AccountLe);
    SortSorted(b.periods, PeriodLe);
    SortSorted(b.transactions, TransactionLe);
  }
}
