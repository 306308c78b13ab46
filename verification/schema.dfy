/** The SQL schema: five append-only tables and the audit log, the constraints an insert must meet,
    and the triggers that copy every inserted row into the log.

    A table is the sequence of its rows in insertion order, each beside its owner, the leading key
    columns: the book code, or the book code and transaction reference for entries. */
module Schema {
  import opened Text
  import opened Decimals
  import opened Dates
  import opened Model
  import opened Mapping

  // ---------- Rows ----------

  datatype BookRow = BookRow(name: string, baseCurrency: string, fiscalStartMonth: int, legislativePack: string)

  datatype AccountRow = AccountRow(
    code: string, name: string, normalSide: string, currency: string,
    parentCode: Option<string>, allowPosting: int, active: int)

  datatype PeriodRow = PeriodRow(
    fiscalYear: int, quarter: int, month: int, startDate: string, endDate: string, state: string)

  datatype TransactionRow = TransactionRow(
    reference: string, postedAt: string, description: string, state: string,
    periodFiscalYear: Option<int>, periodQuarter: Option<int>, periodMonth: Option<int>,
    reversalOf: Option<string>)

  datatype EntryRow = EntryRow(
    lineNo: int, accountCode: string, side: string, amount: string, currency: string,
    description: Option<string>, taxRate: Option<string>)

  type Table<K, R> = seq<(K, R)>

  /** The rows of one owner, in insertion order. */
  function Select<K(==), R>(table: Table<K, R>, owner: K): seq<R> {
    if table == [] then []
    else
      var last := table[|table| - 1];
      Select(table[..|table| - 1], owner) + if last.0 == owner then [last.1] else []
  }

  lemma SelectAppend<K, R>(table: Table<K, R>, owner: K, row: R)
    ensures forall k :: Select(table + [(owner, row)], k) == Select(table, k) + if k == owner then [row] else []
  {
    assert (table + [(owner, row)])[..|table|] == table;
  }

  lemma {:induction false} SelectContains<K, R>(table: Table<K, R>, i: nat)
    requires i < |table|
    ensures table[i].1 in Select(table, table[i].0)
  {
    if i < |table| - 1 { SelectContains(table[..|table| - 1], i); }
  }

  // ---------- The log ----------

  datatype AuditContext = AuditContext(actor: string, reason: string, sessionId: Option<string>)

  datatype Issue = Issue(code: string, message: string, entryIndex: Option<int>)

  datatype Statement =
    | InsertBook(book: string, bookRow: BookRow)
    | InsertAccount(book: string, accountRow: AccountRow)
    | InsertPeriod(book: string, periodRow: PeriodRow)
    | InsertTransaction(book: string, transactionRow: TransactionRow)
    | InsertEntry(book: string, reference: string, entryRow: EntryRow)

  /** What a log row records: a whole inserted row (operation INSERT), or a legislative result (operation
      RESULT) with no row behind it. */
  datatype Payload =
    | Inserted(row: Statement)
    | LegislativeResult(book: string, reference: string, packCode: string, issues: seq<Issue>)

  datatype AuditRecord = AuditRecord(seqNo: int, payload: Payload, context: AuditContext)

  function Max(a: int, b: int): int {
    if a > b then a else b
  }

  /** The largest row id in use; 0 in an empty log. */
  function MaxSeq(log: seq<AuditRecord>): int {
    if log == [] then 0 else Max(MaxSeq(log[..|log| - 1]), log[|log| - 1].seqNo)
  }

  // ---------- The database ----------

  datatype Db = Db(
    books: Table<string, BookRow>,
    accounts: Table<string, AccountRow>,
    periods: Table<string, PeriodRow>,
    transactions: Table<string, TransactionRow>,
    entries: Table<(string, string), EntryRow>,
    log: seq<AuditRecord>)

  const EMPTY := Db([], [], [], [], [], [])

  /** SQLite picks one more than the largest row id. */
  function Record(db: Db, payload: Payload, context: AuditContext): Db {
    db.(log := db.log + [AuditRecord(MaxSeq(db.log) + 1, payload, context)])
  }

  function AddRow(db: Db, s: Statement): Db {
    match s
    case InsertBook(b, r) => db.(books := db.books + [(b, r)])
    case InsertAccount(b, r) => db.(accounts := db.accounts + [(b, r)])
    case InsertPeriod(b, r) => db.(periods := db.periods + [(b, r)])
    case InsertTransaction(b, r) => db.(transactions := db.transactions + [(b, r)])
    case InsertEntry(b, t, r) => db.(entries := db.entries + [((b, t), r)])
  }

  /** A row goes in and its trigger fires. */
  function Append(db: Db, s: Statement, context: AuditContext): Db {
    Record(AddRow(db, s), Inserted(s), context)
  }

  // ---------- Constraints ----------

  predicate HasBook(db: Db, book: string) { Select(db.books, book) != [] }

  predicate HasAccount(db: Db, book: string, code: string) {
    exists r | r in Select(db.accounts, book) :: r.code == code
  }

  predicate HasPeriod(db: Db, book: string, row: PeriodRow) {
    exists r | r in Select(db.periods, book) ::
      r.fiscalYear == row.fiscalYear && r.quarter == row.quarter && r.month == row.month
  }

  predicate HasTransaction(db: Db, book: string, reference: string) {
    exists r | r in Select(db.transactions, book) :: r.reference == reference
  }

  predicate HasLine(db: Db, book: string, reference: string, line: int) {
    exists r | r in Select(db.entries, (book, reference)) :: r.lineNo == line
  }

  predicate StartsWithMinus(s: string) { s != "" && s[0] == '-' }

  /** PRIMARY KEY, immediate FOREIGN KEY and CHECK rules of the table a row goes to. */
  predicate Admits(db: Db, s: Statement) {
    match s
    case InsertBook(b, r) => !HasBook(db, b) && 1 <= r.fiscalStartMonth <= 12
    case InsertAccount(b, r) =>
      && !HasAccount(db, b, r.code) && HasBook(db, b)
      && (r.normalSide == "Dr" || r.normalSide == "Cr")
      && 0 <= r.allowPosting <= 1 && 0 <= r.active <= 1
    case InsertPeriod(b, r) =>
      && !HasPeriod(db, b, r) && HasBook(db, b)
      && 1 <= r.quarter <= 4 && 1 <= r.month <= 12
      && (r.state == "open" || r.state == "closed" || r.state == "locked")
    case InsertTransaction(b, r) =>
      && !HasTransaction(db, b, r.reference) && HasBook(db, b)
      && (r.state == "draft" || r.state == "posted" || r.state == "reversed")
      && ((r.periodFiscalYear.None? && r.periodQuarter.None? && r.periodMonth.None?)
          || (r.periodFiscalYear.Some? && r.periodQuarter.Some? && r.periodMonth.Some?))
    case InsertEntry(b, t, r) =>
      && !HasLine(db, b, t, r.lineNo) && HasTransaction(db, b, t) && HasAccount(db, b, r.accountCode)
      && r.lineNo >= 0
      && (r.side == "Dr" || r.side == "Cr")
      && r.amount != "" && !StartsWithMinus(r.amount)
      && (r.taxRate.Some? ==> !StartsWithMinus(r.taxRate.value))
  }

  /** The deferred parent link of every account, checked when a transaction commits. */
  predicate ParentsStored(db: Db) {
    forall i | 0 <= i < |db.accounts| && db.accounts[i].1.parentCode.Some? ::
      HasAccount(db, db.accounts[i].0, db.accounts[i].1.parentCode.value)
  }

  function Execute(db: Db, s: Statement, context: AuditContext): Option<Db> {
    if Admits(db, s) then Some(Append(db, s, context)) else None
  }

  /** Statements one after the other; None as soon as one violates a constraint. */
  function ExecuteAll(db: Db, statements: seq<Statement>, context: AuditContext): Option<Db> {
    if statements == [] then Some(db)
    else
      match ExecuteAll(db, statements[..|statements| - 1], context)
      case None => None
      case Some(d) => Execute(d, statements[|statements| - 1], context)
  }

  lemma ExecuteAllAppend(db: Db, a: seq<Statement>, s: Statement, context: AuditContext)
    ensures ExecuteAll(db, a + [s], context)
         == match ExecuteAll(db, a, context) case None => None case Some(d) => Execute(d, s, context)
  {
    assert (a + [s])[..|a|] == a;
  }

  lemma {:induction false} ExecuteAllConcat(db: Db, a: seq<Statement>, b: seq<Statement>, context: AuditContext)
    ensures ExecuteAll(db, a + b, context)
         == match ExecuteAll(db, a, context) case None => None case Some(d) => ExecuteAll(d, b, context)
  {
    if b == [] {
      assert a + b == a;
    } else {
      var n := |b| - 1;
      ExecuteAllConcat(db, a, b[..n], context);
      assert a + b == (a + b[..n]) + [b[n]];
      ExecuteAllAppend(db, a + b[..n], b[n], context);
    }
  }

  /** One SQL transaction: all of it, or nothing. */
  function Transact(db: Db, statements: seq<Statement>, context: AuditContext): Option<Db> {
    match ExecuteAll(db, statements, context)
    case None => None
    case Some(d) => if ParentsStored(d) then Some(d) else None
  }

  // ---------- The rows of a value ----------

  function BookRowOf(b: Book): BookRow {
    BookRow(b.name, b.baseCurrency, b.startMonth, b.legislativePack)
  }

  function BoolInt(b: bool): int {
    if b then 1 else 0
  }

  function AccountRowOf(a: Account): AccountRow {
    AccountRow(a.code, a.name, SideText(a.normalSide), a.currency, a.parentCode, BoolInt(a.allowPosting), BoolInt(a.active))
  }

  function PeriodRowOf(p: BookPeriod): PeriodRow {
    PeriodRow(p.period.fiscalYear, p.period.quarter, p.period.month,
              DateText(p.startDate), DateText(p.endDate), PeriodStateText(p.state))
  }

  function TransactionRowOf(t: JournalTransaction): TransactionRow {
    TransactionRow(
      t.reference, t.postedAt, t.description, StateText(t.state),
      match t.period case None => None case Some(p) => Some(p.fiscalYear),
      match t.period case None => None case Some(p) => Some(p.quarter),
      match t.period case None => None case Some(p) => Some(p.month),
      t.reversalOf)
  }

  function EntryRowOf(line: int, e: LedgerEntry): EntryRow {
    EntryRow(line, e.accountCode, SideText(e.side), PrintFixed(e.amount), e.currency, e.description, RateText(e.taxRate))
  }

  /** Lines are numbered from 0 in the order of the entries. */
  function EntryRowsOf(entries: seq<LedgerEntry>): seq<EntryRow> {
    if entries == [] then []
    else
      var n := |entries| - 1;
      EntryRowsOf(entries[..n]) + [EntryRowOf(n, entries[n])]
  }

  function EntryStatements(book: string, reference: string, entries: seq<LedgerEntry>): (r: seq<Statement>)
    ensures |r| == |entries|
  {
    if entries == [] then []
    else
      var n := |entries| - 1;
      EntryStatements(book, reference, entries[..n]) + [InsertEntry(book, reference, EntryRowOf(n, entries[n]))]
  }

  function TransactionStatements(book: string, t: JournalTransaction): seq<Statement> {
    [InsertTransaction(book, TransactionRowOf(t))] + EntryStatements(book, t.reference, t.entries)
  }

  function AccountStatements(book: string, accounts: seq<Account>): seq<Statement> {
    if accounts == [] then []
    else
      var n := |accounts| - 1;
      AccountStatements(book, accounts[..n]) + [InsertAccount(book, AccountRowOf(accounts[n]))]
  }

  function PeriodStatements(book: string, periods: seq<BookPeriod>): seq<Statement> {
    if periods == [] then []
    else
      var n := |periods| - 1;
      PeriodStatements(book, periods[..n]) + [InsertPeriod(book, PeriodRowOf(periods[n]))]
  }

  function AllTransactionStatements(book: string, transactions: seq<JournalTransaction>): seq<Statement> {
    if transactions == [] then []
    else
      var n := |transactions| - 1;
      AllTransactionStatements(book, transactions[..n]) + TransactionStatements(book, transactions[n])
  }

  function BookStatements(b: Book): seq<Statement> {
    [InsertBook(b.code, BookRowOf(b))] + AccountStatements(b.code, b.accounts)
    + PeriodStatements(b.code, b.periods) + AllTransactionStatements(b.code, b.transactions)
  }
}
