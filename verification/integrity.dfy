/** What the keys, links and checks of the schema mean for whole tables, and that an insert is admitted
    exactly when the tables still satisfy them with its row. */
module Integrity {
  import opened Model
  import opened Sorting
  import opened Schema
  import opened Commands

  // ---------- Rows of a table ----------

  lemma {:induction false} SelectIs<K, R>(table: Table<K, R>, owner: K, row: R)
    ensures row in Select(table, owner) <==> (owner, row) in table
  {
    if table != [] {
      var n := |table| - 1;
      assert table == table[..n] + [table[n]];
      SelectIs(table[..n], owner, row);
    }
  }

  lemma {:induction false} SelectEmpty<K, R>(table: Table<K, R>, owner: K)
    ensures Select(table, owner) == [] <==> forall i | 0 <= i < |table| :: table[i].0 != owner
  {
    if table != [] { SelectEmpty(table[..|table| - 1], owner); }
  }

  // ---------- Tables that satisfy the schema ----------

  predicate BookStored(db: Db, book: string) {
    exists i | 0 <= i < |db.books| :: db.books[i].0 == book
  }

  predicate AccountStored(db: Db, book: string, code: string) {
    exists i | 0 <= i < |db.accounts| :: db.accounts[i].0 == book && db.accounts[i].1.code == code
  }

  predicate TransactionStored(db: Db, book: string, reference: string) {
    exists i | 0 <= i < |db.transactions| :: db.transactions[i].0 == book && db.transactions[i].1.reference == reference
  }

  predicate SamePeriod(a: PeriodRow, b: PeriodRow) {
    a.fiscalYear == b.fiscalYear && a.quarter == b.quarter && a.month == b.month
  }

  // Primary keys: no two rows share one.

  predicate BookKeys(a: (string, BookRow), b: (string, BookRow)) { a.0 != b.0 }

  predicate AccountKeys(a: (string, AccountRow), b: (string, AccountRow)) { a.0 != b.0 || a.1.code != b.1.code }

  predicate PeriodKeys(a: (string, PeriodRow), b: (string, PeriodRow)) { a.0 != b.0 || !SamePeriod(a.1, b.1) }

  predicate TransactionKeys(a: (string, TransactionRow), b: (string, TransactionRow)) {
    a.0 != b.0 || a.1.reference != b.1.reference
  }

  predicate LineKeys(a: ((string, string), EntryRow), b: ((string, string), EntryRow)) {
    a.0 != b.0 || a.1.lineNo != b.1.lineNo
  }

  // Foreign keys and checks of one row.

  predicate BookRowSound(r: BookRow) { 1 <= r.fiscalStartMonth <= 12 }

  predicate AccountRowSound(db: Db, book: string, r: AccountRow) {
    BookStored(db, book) && r.normalSide in {"Dr", "Cr"} && r.allowPosting in {0, 1} && r.active in {0, 1}
  }

  predicate PeriodRowSound(db: Db, book: string, r: PeriodRow) {
    BookStored(db, book) && 1 <= r.quarter <= 4 && 1 <= r.month <= 12 && r.state in {"open", "closed", "locked"}
  }

  /** All three period columns are set or none is. */
  predicate TransactionRowSound(db: Db, book: string, r: TransactionRow) {
    && BookStored(db, book) && r.state in {"draft", "posted", "reversed"}
    && (r.periodFiscalYear.Some? <==> r.periodQuarter.Some?) && (r.periodQuarter.Some? <==> r.periodMonth.Some?)
  }

  predicate Unsigned(s: string) { s == "" || s[0] != '-' }

  predicate EntryRowSound(db: Db, book: string, reference: string, r: EntryRow) {
    && TransactionStored(db, book, reference) && AccountStored(db, book, r.accountCode)
    && r.lineNo >= 0 && r.side in {"Dr", "Cr"}
    && r.amount != "" && Unsigned(r.amount) && (r.taxRate.Some? ==> Unsigned(r.taxRate.value))
  }

  ghost predicate BooksSound(db: Db) {
    && Pairwise(db.books, BookKeys)
    && forall i | 0 <= i < |db.books| :: BookRowSound(db.books[i].1)
  }

  ghost predicate AccountsSound(db: Db) {
    && Pairwise(db.accounts, AccountKeys)
    && forall i | 0 <= i < |db.accounts| :: AccountRowSound(db, db.accounts[i].0, db.accounts[i].1)
  }

  ghost predicate PeriodsSound(db: Db) {
    && Pairwise(db.periods, PeriodKeys)
    && forall i | 0 <= i < |db.periods| :: PeriodRowSound(db, db.periods[i].0, db.periods[i].1)
  }

  ghost predicate TransactionsSound(db: Db) {
    && Pairwise(db.transactions, TransactionKeys)
    && forall i | 0 <= i < |db.transactions| :: TransactionRowSound(db, db.transactions[i].0, db.transactions[i].1)
  }

  ghost predicate EntriesSound(db: Db) {
    && Pairwise(db.entries, LineKeys)
    && forall i | 0 <= i < |db.entries| :: EntryRowSound(db, db.entries[i].0.0, db.entries[i].0.1, db.entries[i].1)
  }

  /** Every primary key, immediate foreign key and check of the five tables. */
  ghost predicate Sound(db: Db) {
    BooksSound(db) && AccountsSound(db) && PeriodsSound(db) && TransactionsSound(db) && EntriesSound(db)
  }

  // ---------- The lookups of an insert ----------

  lemma BookFound(db: Db, book: string)
    ensures HasBook(db, book) <==> BookStored(db, book)
  {
    SelectEmpty(db.books, book);
  }

  lemma AccountFound(db: Db, book: string, code: string)
    ensures HasAccount(db, book, code) <==> AccountStored(db, book, code)
  {
    hide Select;
    forall r ensures r in Select(db.accounts, book) <==> (book, r) in db.accounts { SelectIs(db.accounts, book, r); }
    if AccountStored(db, book, code) {
      var i :| 0 <= i < |db.accounts| && db.accounts[i].0 == book && db.accounts[i].1.code == code;
      assert (book, db.accounts[i].1) in db.accounts;
    }
    if HasAccount(db, book, code) {
      var r :| r in Select(db.accounts, book) && r.code == code;
      var i :| 0 <= i < |db.accounts| && db.accounts[i] == (book, r);
    }
  }

  lemma PeriodFound(db: Db, book: string, row: PeriodRow)
    ensures HasPeriod(db, book, row) <==> exists i | 0 <= i < |db.periods| :: db.periods[i].0 == book && SamePeriod(db.periods[i].1, row)
  {
    hide Select;
    forall r ensures r in Select(db.periods, book) <==> (book, r) in db.periods { SelectIs(db.periods, book, r); }
    if i :| 0 <= i < |db.periods| && db.periods[i].0 == book && SamePeriod(db.periods[i].1, row) {
      assert (book, db.periods[i].1) in db.periods;
    }
    if HasPeriod(db, book, row) {
      var r :| r in Select(db.periods, book) && SamePeriod(r, row);
      var i :| 0 <= i < |db.periods| && db.periods[i] == (book, r);
    }
  }

  lemma TransactionFound(db: Db, book: string, reference: string)
    ensures HasTransaction(db, book, reference) <==> TransactionStored(db, book, reference)
  {
    hide Select;
    forall r ensures r in Select(db.transactions, book) <==> (book, r) in db.transactions { SelectIs(db.transactions, book, r); }
    if TransactionStored(db, book, reference) {
      var i :| 0 <= i < |db.transactions| && db.transactions[i].0 == book && db.transactions[i].1.reference == reference;
      assert (book, db.transactions[i].1) in db.transactions;
    }
    if HasTransaction(db, book, reference) {
      var r :| r in Select(db.transactions, book) && r.reference == reference;
      var i :| 0 <= i < |db.transactions| && db.transactions[i] == (book, r);
    }
  }

  lemma LineFound(db: Db, book: string, reference: string, line: int)
    ensures HasLine(db, book, reference, line)
       <==> exists i | 0 <= i < |db.entries| :: db.entries[i].0 == (book, reference) && db.entries[i].1.lineNo == line
  {
    hide Select;
    var owner := (book, reference);
    forall r ensures r in Select(db.entries, owner) <==> (owner, r) in db.entries { SelectIs(db.entries, owner, r); }
    if i :| 0 <= i < |db.entries| && db.entries[i].0 == owner && db.entries[i].1.lineNo == line {
      assert (owner, db.entries[i].1) in db.entries;
    }
    if HasLine(db, book, reference, line) {
      var r :| r in Select(db.entries, owner) && r.lineNo == line;
      var i :| 0 <= i < |db.entries| && db.entries[i] == (owner, r);
    }
  }

  // ---------- An insert keeps the tables sound ----------

  lemma PairwiseAppend<T>(s: seq<T>, x: T, apart: (T, T) -> bool)
    ensures Pairwise(s + [x], apart)
       <==> Pairwise(s, apart) && forall i | 0 <= i < |s| :: apart(s[i], x) && apart(x, s[i])
  {
    var all := s + [x];
    assert all[|s|] == x && forall i | 0 <= i < |s| :: all[i] == s[i];
    if Pairwise(all, apart) {
      forall i | 0 <= i < |s| ensures apart(s[i], x) && apart(x, s[i]) {
        assert apart(all[i], all[|s|]) && apart(all[|s|], all[i]);
      }
      forall i, j | 0 <= i < |s| && 0 <= j < |s| && i != j ensures apart(s[i], s[j]) { assert apart(all[i], all[j]); }
    }
  }

  /** What is stored stays stored, and what is stored in a table that did not change was stored before. */
  lemma StoredStays(db: Db, s: Statement)
    ensures var after := AddRow(db, s);
            && (forall b | BookStored(db, b) :: BookStored(after, b))
            && (forall b, c | AccountStored(db, b, c) :: AccountStored(after, b, c))
            && (forall b, t | TransactionStored(db, b, t) :: TransactionStored(after, b, t))
            && (!s.InsertBook? ==> forall b | BookStored(after, b) :: BookStored(db, b))
            && (!s.InsertAccount? ==> forall b, c | AccountStored(after, b, c) :: AccountStored(db, b, c))
            && (!s.InsertTransaction? ==> forall b, t | TransactionStored(after, b, t) :: TransactionStored(db, b, t))
  {
    var after := AddRow(db, s);
    forall b | BookStored(db, b) ensures BookStored(after, b) {
      var i :| 0 <= i < |db.books| && db.books[i].0 == b;
      assert after.books[i].0 == b;
    }
    forall b, c | AccountStored(db, b, c) ensures AccountStored(after, b, c) {
      var i :| 0 <= i < |db.accounts| && db.accounts[i].0 == b && db.accounts[i].1.code == c;
      assert after.accounts[i].0 == b;
    }
    forall b, t | TransactionStored(db, b, t) ensures TransactionStored(after, b, t) {
      var i :| 0 <= i < |db.transactions| && db.transactions[i].0 == b && db.transactions[i].1.reference == t;
      assert after.transactions[i].0 == b;
    }
  }

  /** Rows of the tables that an insert does not touch stay sound. */
  lemma OthersStaySound(db: Db, s: Statement)
    requires Sound(db)
    ensures var after := AddRow(db, s);
            && (!s.InsertBook? ==> BooksSound(after))
            && (!s.InsertAccount? ==> AccountsSound(after))
            && (!s.InsertPeriod? ==> PeriodsSound(after))
            && (!s.InsertTransaction? ==> TransactionsSound(after))
            && (!s.InsertEntry? ==> EntriesSound(after))
  {
    hide Pairwise, BookStored, AccountStored, TransactionStored, Unsigned;
    StoredStays(db, s);
  }

  lemma BookInsert(db: Db, book: string, r: BookRow)
    requires Sound(db)
    ensures Admits(db, InsertBook(book, r)) <==> BooksSound(AddRow(db, InsertBook(book, r)))
  {
    hide Pairwise, HasBook;
    BookFound(db, book);
    PairwiseAppend(db.books, (book, r), BookKeys);
    var after := AddRow(db, InsertBook(book, r));
    assert after.books[|db.books|] == (book, r) && forall i | 0 <= i < |db.books| :: after.books[i] == db.books[i];
  }

  lemma AccountInsert(db: Db, book: string, r: AccountRow)
    requires Sound(db)
    ensures Admits(db, InsertAccount(book, r)) <==> AccountsSound(AddRow(db, InsertAccount(book, r)))
  {
    hide Pairwise, HasBook, HasAccount, BookStored;
    BookFound(db, book);
    AccountFound(db, book, r.code);
    StoredStays(db, InsertAccount(book, r));
    PairwiseAppend(db.accounts, (book, r), AccountKeys);
    var after := AddRow(db, InsertAccount(book, r));
    assert after.accounts[|db.accounts|] == (book, r) && forall i | 0 <= i < |db.accounts| :: after.accounts[i] == db.accounts[i];
  }

  lemma PeriodInsert(db: Db, book: string, r: PeriodRow)
    requires Sound(db)
    ensures Admits(db, InsertPeriod(book, r)) <==> PeriodsSound(AddRow(db, InsertPeriod(book, r)))
  {
    hide Pairwise, HasBook, HasPeriod, BookStored;
    BookFound(db, book);
    PeriodFound(db, book, r);
    StoredStays(db, InsertPeriod(book, r));
    PairwiseAppend(db.periods, (book, r), PeriodKeys);
    var after := AddRow(db, InsertPeriod(book, r));
    assert after.periods[|db.periods|] == (book, r) && forall i | 0 <= i < |db.periods| :: after.periods[i] == db.periods[i];
  }

  lemma TransactionInsert(db: Db, book: string, r: TransactionRow)
    requires Sound(db)
    ensures Admits(db, InsertTransaction(book, r)) <==> TransactionsSound(AddRow(db, InsertTransaction(book, r)))
  {
    hide Pairwise, HasBook, HasTransaction, BookStored;
    BookFound(db, book);
    TransactionFound(db, book, r.reference);
    StoredStays(db, InsertTransaction(book, r));
    PairwiseAppend(db.transactions, (book, r), TransactionKeys);
    var after := AddRow(db, InsertTransaction(book, r));
    assert after.transactions[|db.transactions|] == (book, r);
    assert forall i | 0 <= i < |db.transactions| :: after.transactions[i] == db.transactions[i];
  }

  lemma EntryInsert(db: Db, book: string, reference: string, r: EntryRow)
    requires Sound(db)
    ensures Admits(db, InsertEntry(book, reference, r)) <==> EntriesSound(AddRow(db, InsertEntry(book, reference, r)))
  {
    hide Pairwise, HasTransaction, HasAccount, HasLine, AccountStored, TransactionStored;
    TransactionFound(db, book, reference);
    AccountFound(db, book, r.accountCode);
    LineFound(db, book, reference, r.lineNo);
    StoredStays(db, InsertEntry(book, reference, r));
    PairwiseAppend(db.entries, ((book, reference), r), LineKeys);
    var after := AddRow(db, InsertEntry(book, reference, r));
    assert after.entries[|db.entries|] == ((book, reference), r);
    assert forall i | 0 <= i < |db.entries| :: after.entries[i] == db.entries[i];
  }

  /** A row is admitted exactly when the tables, with the row, satisfy every key, link and check. */
  lemma AdmittedIffSound(db: Db, s: Statement)
    requires Sound(db)
    ensures Admits(db, s) <==> Sound(AddRow(db, s))
  {
    hide Admits, AddRow, BooksSound, AccountsSound, PeriodsSound, TransactionsSound, EntriesSound;
    OthersStaySound(db, s);
    match s
    case InsertBook(b, r) => BookInsert(db, b, r);
    case InsertAccount(b, r) => AccountInsert(db, b, r);
    case InsertPeriod(b, r) => PeriodInsert(db, b, r);
    case InsertTransaction(b, r) => TransactionInsert(db, b, r);
    case InsertEntry(b, t, r) => EntryInsert(db, b, t, r);
  }

  // ---------- Every reachable store ----------

  /** The log is no part of this. */
  lemma LogIsFree(db: Db, payload: Payload, context: AuditContext)
    ensures Sound(Record(db, payload, context)) <==> Sound(db)
    ensures ParentsStored(Record(db, payload, context)) <==> ParentsStored(db)
  {
    hide Pairwise, MaxSeq, Unsigned;
    var after := Record(db, payload, context);
    assert forall b :: BookStored(after, b) <==> BookStored(db, b);
    assert forall b, c :: AccountStored(after, b, c) <==> AccountStored(db, b, c);
    assert forall b, t :: TransactionStored(after, b, t) <==> TransactionStored(db, b, t);
  }

  lemma {:induction false} ExecuteAllSound(db: Db, statements: seq<Statement>, context: AuditContext)
    requires Sound(db) && ExecuteAll(db, statements, context).Some?
    ensures Sound(ExecuteAll(db, statements, context).value)
  {
    hide Sound, Admits, AddRow, Record;
    if statements != [] {
      var n := |statements| - 1;
      ExecuteAllSound(db, statements[..n], context);
      var reached := ExecuteAll(db, statements[..n], context).value;
      AdmittedIffSound(reached, statements[n]);
      LogIsFree(AddRow(reached, statements[n]), Inserted(statements[n]), context);
    }
  }

  /** Also the parent links, which are checked at commit. */
  ghost predicate Committed(db: Db) {
    Sound(db) && ParentsStored(db)
  }

  lemma WriteSound(db: Db, statements: seq<Statement>, context: AuditContext)
    requires Committed(db)
    ensures Committed(Finish(db, Transact(db, statements, context)).0)
  {
    hide Sound, ExecuteAll, ParentsStored;
    if ExecuteAll(db, statements, context).Some? { ExecuteAllSound(db, statements, context); }
  }

  lemma ReversalSound(
    iso: Iso4217, db: Db, book: string, originalRef: string, reversalRef: string, context: AuditContext)
    requires Committed(db)
    ensures Committed(AppendReversal(iso, db, book, originalRef, reversalRef, context).0)
  {
    hide Transact, TransactionStatements, ReversalFrom, TransactionPayload, EntryRows, Committed, Finish;
    var found := FindRow(Select(db.transactions, book), originalRef);
    if found.Some? {
      var made := ReversalFrom(iso, TransactionPayload(found.value, EntryRows(db, book, originalRef)), originalRef, reversalRef);
      if made.Ok? { WriteSound(db, TransactionStatements(book, made.value), context); }
    }
  }

  lemma ApplySound(iso: Iso4217, db: Db, c: Command)
    requires Committed(db)
    ensures Committed(Apply(iso, db, c).0)
  {
    hide Transact, BookStatements, TransactionStatements, Record, ChartOk, EntriesOk, AppendReversal, Sound, ParentsStored, Finish;
    match c
    case CreateBookCommand(b, context) => WriteSound(db, BookStatements(b), context);
    case AppendTransactionCommand(book, t, context) => WriteSound(db, TransactionStatements(book, t), context);
    case CreateReversalCommand(book, original, reversal, context) =>
      ReversalSound(iso, db, book, original, reversal, context);
    case AppendResultCommand(book, reference, pack, issues, context) =>
      LogIsFree(db, LegislativeResult(book, reference, pack, issues), context);
    case SnapshotCommand(_, _) =>
  }

  /** After every run, whatever values its commands carry, the tables satisfy every key, link and check. */
  lemma {:induction false} RunSound(iso: Iso4217, commands: seq<Command>)
    ensures Committed(Run(iso, EMPTY, commands))
  {
    hide Apply, Committed;
    if commands == [] {
      EmptySound();
    } else {
      RunSound(iso, commands[..|commands| - 1]);
      ApplySound(iso, Run(iso, EMPTY, commands[..|commands| - 1]), commands[|commands| - 1]);
    }
  }

  lemma EmptySound()
    ensures Committed(EMPTY)
  {}
}
