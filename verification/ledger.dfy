/** The abstract ledger, a map from book codes to books, and what it means for the tables to
    represent one. */
module Ledgers {
  import opened Text
  import opened Decimals
  import opened Model
  import opened Sequences
  import opened Mapping
  import opened Schema

  type Ledger = map<string, Book>

  function References(transactions: seq<JournalTransaction>): set<string> {
    set t | t in transactions :: t.reference
  }

  predicate DistinctReferences(transactions: seq<JournalTransaction>) {
    forall i, j | 0 <= i < j < |transactions| :: transactions[i].reference != transactions[j].reference
  }

  function Find(transactions: seq<JournalTransaction>, reference: string): (r: Option<JournalTransaction>)
    ensures r.Some? ==> r.value in transactions && r.value.reference == reference
    ensures r.None? <==> reference !in References(transactions)
  {
    if transactions == [] then None
    else
      var n := |transactions| - 1;
      if transactions[n].reference == reference then Some(transactions[n])
      else Find(transactions[..n], reference)
  }

  /** Every stored book obeys the Book rules, but for the periods its transactions name. */
  ghost predicate LedgerOk(iso: Iso4217, ledger: Ledger) {
    forall code | code in ledger ::
      && ledger[code].code == code
      && BookOkButPeriods(iso, ledger[code])
      && DistinctReferences(ledger[code].transactions)
  }

  // ---------- Representation ----------

  function BooksAt(ledger: Ledger, code: string): seq<BookRow> {
    if code in ledger then [BookRowOf(ledger[code])] else []
  }

  function AccountsAt(ledger: Ledger, code: string): seq<AccountRow> {
    if code in ledger then MapSeq(ledger[code].accounts, AccountRowOf) else []
  }

  function PeriodsAt(ledger: Ledger, code: string): seq<PeriodRow> {
    if code in ledger then MapSeq(ledger[code].periods, PeriodRowOf) else []
  }

  function TransactionsAt(ledger: Ledger, code: string): seq<TransactionRow> {
    if code in ledger then MapSeq(ledger[code].transactions, TransactionRowOf) else []
  }

  function EntriesOf(transactions: seq<JournalTransaction>, reference: string): seq<EntryRow> {
    match Find(transactions, reference) case None => [] case Some(t) => EntryRowsOf(t.entries)
  }

  function EntriesAt(ledger: Ledger, owner: (string, string)): seq<EntryRow> {
    if owner.0 in ledger then EntriesOf(ledger[owner.0].transactions, owner.1) else []
  }

  ghost predicate ShowsBooks(table: Table<string, BookRow>, ledger: Ledger) {
    forall code :: Select(table, code) == BooksAt(ledger, code)
  }

  ghost predicate ShowsAccounts(table: Table<string, AccountRow>, ledger: Ledger) {
    forall code :: Select(table, code) == AccountsAt(ledger, code)
  }

  ghost predicate ShowsPeriods(table: Table<string, PeriodRow>, ledger: Ledger) {
    forall code :: Select(table, code) == PeriodsAt(ledger, code)
  }

  ghost predicate ShowsTransactions(table: Table<string, TransactionRow>, ledger: Ledger) {
    forall code :: Select(table, code) == TransactionsAt(ledger, code)
  }

  ghost predicate ShowsEntries(table: Table<(string, string), EntryRow>, ledger: Ledger) {
    forall owner :: Select(table, owner) == EntriesAt(ledger, owner)
  }

  /** For every owner, the rows are those of the ledger's values, in order; the rest of a table is empty. */
  ghost predicate Represents(db: Db, ledger: Ledger) {
    && ShowsBooks(db.books, ledger)
    && ShowsAccounts(db.accounts, ledger)
    && ShowsPeriods(db.periods, ledger)
    && ShowsTransactions(db.transactions, ledger)
    && ShowsEntries(db.entries, ledger)
  }

  lemma EmptyRepresents()
    ensures Represents(EMPTY, map[])
  {}

  // ---------- What the keys of a represented database say ----------

  lemma StoredBook(db: Db, ledger: Ledger, code: string)
    requires ShowsBooks(db.books, ledger)
    ensures HasBook(db, code) <==> code in ledger
  {
    assert Select(db.books, code) == BooksAt(ledger, code);
  }

  lemma StoredAccount(db: Db, ledger: Ledger, book: string, code: string)
    requires ShowsAccounts(db.accounts, ledger) && book in ledger
    ensures HasAccount(db, book, code) <==> code in Codes(ledger[book].accounts)
  {
    var accounts, rows := ledger[book].accounts, Select(db.accounts, book);
    assert rows == MapSeq(accounts, AccountRowOf);
    hide AccountRowOf;
    AccountKeys(accounts, code);
  }

  lemma AccountKeys(accounts: seq<Account>, code: string)
    ensures (exists r | r in MapSeq(accounts, AccountRowOf) :: r.code == code) <==> code in Codes(accounts)
  {
    var rows := MapSeq(accounts, AccountRowOf);
    assert forall i | 0 <= i < |accounts| :: rows[i].code == accounts[i].code && rows[i] in rows;
  }

  lemma PeriodKeys(periods: seq<BookPeriod>, p: FiscalPeriod)
    ensures (exists r | r in MapSeq(periods, PeriodRowOf) ::
              r.fiscalYear == p.fiscalYear && r.quarter == p.quarter && r.month == p.month)
            <==> p in FiscalPeriods(periods)
  {
    hide PeriodStateText;
    var rows := MapSeq(periods, PeriodRowOf);
    forall i | 0 <= i < |periods|
      ensures (rows[i].fiscalYear == p.fiscalYear && rows[i].quarter == p.quarter && rows[i].month == p.month)
              <==> periods[i].period == p
      ensures rows[i] in rows
    {
      assert rows[i] == PeriodRowOf(periods[i]);
    }
    if p in FiscalPeriods(periods) {
      var i :| 0 <= i < |periods| && periods[i].period == p;
      assert rows[i] in rows;
    }
  }

  lemma StoredPeriod(db: Db, ledger: Ledger, book: string, p: BookPeriod)
    requires ShowsPeriods(db.periods, ledger) && book in ledger
    ensures HasPeriod(db, book, PeriodRowOf(p)) <==> p.period in FiscalPeriods(ledger[book].periods)
  {
    hide MapSeq, FiscalPeriods;
    assert Select(db.periods, book) == MapSeq(ledger[book].periods, PeriodRowOf);
    PeriodKeys(ledger[book].periods, p.period);
  }

  lemma TransactionKeys(transactions: seq<JournalTransaction>, reference: string)
    ensures (exists r | r in MapSeq(transactions, TransactionRowOf) :: r.reference == reference)
            <==> reference in References(transactions)
  {
    hide StateText;
    var rows := MapSeq(transactions, TransactionRowOf);
    assert forall i | 0 <= i < |transactions| :: rows[i].reference == transactions[i].reference && rows[i] in rows;
  }

  lemma StoredTransaction(db: Db, ledger: Ledger, book: string, reference: string)
    requires ShowsTransactions(db.transactions, ledger)
    ensures HasTransaction(db, book, reference) <==> book in ledger && reference in References(ledger[book].transactions)
  {
    hide MapSeq, References;
    assert Select(db.transactions, book) == TransactionsAt(ledger, book);
    if book in ledger { TransactionKeys(ledger[book].transactions, reference); }
  }

  /** Charts without dangling parents pass the check at commit. */
  lemma ParentsAreStored(iso: Iso4217, db: Db, ledger: Ledger)
    requires ShowsAccounts(db.accounts, ledger) && LedgerOk(iso, ledger)
    ensures ParentsStored(db)
  {
    hide AccountOk, BookPeriodOk, TransactionOk, PeriodsOk;
    forall i | 0 <= i < |db.accounts| && db.accounts[i].1.parentCode.Some?
      ensures HasAccount(db, db.accounts[i].0, db.accounts[i].1.parentCode.value)
    {
      var (book, row) := db.accounts[i];
      SelectContains(db.accounts, i);
      assert row in AccountsAt(ledger, book);
      var k :| 0 <= k < |ledger[book].accounts| && AccountRowOf(ledger[book].accounts[k]) == row;
      StoredAccount(db, ledger, book, row.parentCode.value);
    }
  }

  // ---------- One insert at a time ----------

  function Bare(b: Book): Book {
    b.(accounts := [], periods := [], transactions := [])
  }

  function WithAccount(ledger: Ledger, code: string, a: Account): Ledger
    requires code in ledger
  {
    ledger[code := ledger[code].(accounts := ledger[code].accounts + [a])]
  }

  function WithPeriod(ledger: Ledger, code: string, p: BookPeriod): Ledger
    requires code in ledger
  {
    ledger[code := ledger[code].(periods := ledger[code].periods + [p])]
  }

  function WithTransaction(ledger: Ledger, code: string, t: JournalTransaction): Ledger
    requires code in ledger
  {
    ledger[code := ledger[code].(transactions := ledger[code].transactions + [t])]
  }

  lemma BookShown(table: Table<string, BookRow>, ledger: Ledger, b: Book)
    requires ShowsBooks(table, ledger) && b.code !in ledger
    ensures ShowsBooks(table + [(b.code, BookRowOf(b))], ledger[b.code := Bare(b)])
  {
    SelectAppend(table, b.code, BookRowOf(b));
  }

  lemma BareFrame(ledger: Ledger, b: Book)
    requires b.code !in ledger
    ensures var after := ledger[b.code := Bare(b)];
            && (forall c :: AccountsAt(after, c) == AccountsAt(ledger, c))
            && (forall c :: PeriodsAt(after, c) == PeriodsAt(ledger, c))
            && (forall c :: TransactionsAt(after, c) == TransactionsAt(ledger, c))
            && (forall o :: EntriesAt(after, o) == EntriesAt(ledger, o))
  {}

  lemma BookStep(db: Db, ledger: Ledger, b: Book, context: AuditContext)
    requires Represents(db, ledger) && b.code !in ledger && 1 <= b.startMonth <= 12
    ensures Execute(db, InsertBook(b.code, BookRowOf(b)), context).Some?
    ensures Represents(Execute(db, InsertBook(b.code, BookRowOf(b)), context).value, ledger[b.code := Bare(b)])
  {
    hide ShowsBooks, AccountsAt, PeriodsAt, TransactionsAt, EntriesAt, Select, HasBook;
    StoredBook(db, ledger, b.code);
    BookShown(db.books, ledger, b);
    BareFrame(ledger, b);
  }

  lemma SideTexts(s: PostingSide)
    ensures SideText(s) == "Dr" || SideText(s) == "Cr"
  {}

  lemma AccountShown(table: Table<string, AccountRow>, ledger: Ledger, code: string, a: Account)
    requires ShowsAccounts(table, ledger) && code in ledger
    ensures ShowsAccounts(table + [(code, AccountRowOf(a))], WithAccount(ledger, code, a))
  {
    hide AccountRowOf;
    SelectAppend(table, code, AccountRowOf(a));
    MapSeqAppend(ledger[code].accounts, a, AccountRowOf);
  }

  lemma AccountFrame(ledger: Ledger, code: string, a: Account)
    requires code in ledger
    ensures var after := WithAccount(ledger, code, a);
            && (forall c :: BooksAt(after, c) == BooksAt(ledger, c))
            && (forall c :: PeriodsAt(after, c) == PeriodsAt(ledger, c))
            && (forall c :: TransactionsAt(after, c) == TransactionsAt(ledger, c))
            && (forall o :: EntriesAt(after, o) == EntriesAt(ledger, o))
  {}

  lemma AccountAdmitted(db: Db, ledger: Ledger, code: string, a: Account)
    requires Represents(db, ledger) && code in ledger && a.code !in Codes(ledger[code].accounts)
    ensures Admits(db, InsertAccount(code, AccountRowOf(a)))
  {
    hide ShowsBooks, ShowsAccounts, ShowsPeriods, ShowsTransactions, ShowsEntries, SideText, HasBook, HasAccount;
    SideTexts(a.normalSide);
    StoredBook(db, ledger, code);
    StoredAccount(db, ledger, code, a.code);
  }

  lemma AccountStep(db: Db, ledger: Ledger, code: string, a: Account, context: AuditContext)
    requires Represents(db, ledger) && code in ledger && a.code !in Codes(ledger[code].accounts)
    ensures Execute(db, InsertAccount(code, AccountRowOf(a)), context).Some?
    ensures Represents(Execute(db, InsertAccount(code, AccountRowOf(a)), context).value, WithAccount(ledger, code, a))
  {
    hide ShowsAccounts, BooksAt, PeriodsAt, TransactionsAt, EntriesAt, Select, Admits, AccountRowOf, WithAccount;
    AccountAdmitted(db, ledger, code, a);
    AccountShown(db.accounts, ledger, code, a);
    AccountFrame(ledger, code, a);
  }

  lemma PeriodShown(table: Table<string, PeriodRow>, ledger: Ledger, code: string, p: BookPeriod)
    requires ShowsPeriods(table, ledger) && code in ledger
    ensures ShowsPeriods(table + [(code, PeriodRowOf(p))], WithPeriod(ledger, code, p))
  {
    hide PeriodRowOf;
    SelectAppend(table, code, PeriodRowOf(p));
    MapSeqAppend(ledger[code].periods, p, PeriodRowOf);
  }

  lemma PeriodFrame(ledger: Ledger, code: string, p: BookPeriod)
    requires code in ledger
    ensures var after := WithPeriod(ledger, code, p);
            && (forall c :: BooksAt(after, c) == BooksAt(ledger, c))
            && (forall c :: AccountsAt(after, c) == AccountsAt(ledger, c))
            && (forall c :: TransactionsAt(after, c) == TransactionsAt(ledger, c))
            && (forall o :: EntriesAt(after, o) == EntriesAt(ledger, o))
  {}

  lemma PeriodAdmitted(db: Db, ledger: Ledger, code: string, p: BookPeriod)
    requires Represents(db, ledger) && code in ledger
    requires FiscalPeriodOk(p.period) && p.period !in FiscalPeriods(ledger[code].periods)
    ensures Admits(db, InsertPeriod(code, PeriodRowOf(p)))
  {
    hide ShowsBooks, ShowsAccounts, ShowsPeriods, ShowsTransactions, ShowsEntries, HasBook, HasPeriod;
    StoredBook(db, ledger, code);
    StoredPeriod(db, ledger, code, p);
  }

  lemma PeriodStep(db: Db, ledger: Ledger, code: string, p: BookPeriod, context: AuditContext)
    requires Represents(db, ledger) && code in ledger
    requires FiscalPeriodOk(p.period) && p.period !in FiscalPeriods(ledger[code].periods)
    ensures Execute(db, InsertPeriod(code, PeriodRowOf(p)), context).Some?
    ensures Represents(Execute(db, InsertPeriod(code, PeriodRowOf(p)), context).value, WithPeriod(ledger, code, p))
  {
    hide ShowsPeriods, BooksAt, AccountsAt, TransactionsAt, EntriesAt, Select, Admits, PeriodRowOf, WithPeriod;
    PeriodAdmitted(db, ledger, code, p);
    PeriodShown(db.periods, ledger, code, p);
    PeriodFrame(ledger, code, p);
  }

  // ---------- A transaction with its lines ----------

  /** The entries table once the first `n` lines of a new transaction are in. */
  ghost predicate ShowsLines(table: Table<(string, string), EntryRow>, ledger: Ledger, code: string, t: JournalTransaction, n: nat)
    requires n <= |t.entries|
  {
    forall owner :: Select(table, owner)
                 == if owner == (code, t.reference) then EntryRowsOf(t.entries[..n]) else EntriesAt(ledger, owner)
  }

  /** The transaction row and its first `n` lines are in. */
  ghost predicate Partway(db: Db, ledger: Ledger, code: string, t: JournalTransaction, n: nat)
    requires code in ledger && n <= |t.entries|
  {
    var after := WithTransaction(ledger, code, t);
    && ShowsBooks(db.books, after)
    && ShowsAccounts(db.accounts, after)
    && ShowsPeriods(db.periods, after)
    && ShowsTransactions(db.transactions, after)
    && ShowsLines(db.entries, ledger, code, t, n)
  }

  lemma FindAppended(transactions: seq<JournalTransaction>, t: JournalTransaction, reference: string)
    ensures Find(transactions + [t], reference)
         == if reference == t.reference then Some(t) else Find(transactions, reference)
  {
    assert (transactions + [t])[..|transactions|] == transactions;
  }

  lemma TransactionShown(table: Table<string, TransactionRow>, ledger: Ledger, code: string, t: JournalTransaction)
    requires ShowsTransactions(table, ledger) && code in ledger
    ensures ShowsTransactions(table + [(code, TransactionRowOf(t))], WithTransaction(ledger, code, t))
  {
    hide TransactionRowOf;
    SelectAppend(table, code, TransactionRowOf(t));
    MapSeqAppend(ledger[code].transactions, t, TransactionRowOf);
  }

  lemma TransactionFrame(ledger: Ledger, code: string, t: JournalTransaction)
    requires code in ledger
    ensures var after := WithTransaction(ledger, code, t);
            && (forall c :: BooksAt(after, c) == BooksAt(ledger, c))
            && (forall c :: AccountsAt(after, c) == AccountsAt(ledger, c))
            && (forall c :: PeriodsAt(after, c) == PeriodsAt(ledger, c))
  {}

  lemma NoLinesYet(table: Table<(string, string), EntryRow>, ledger: Ledger, code: string, t: JournalTransaction)
    requires ShowsEntries(table, ledger) && code in ledger && t.reference !in References(ledger[code].transactions)
    ensures ShowsLines(table, ledger, code, t, 0)
  {
    assert EntriesAt(ledger, (code, t.reference)) == [];
  }

  predicate StateTextOk(s: string) { s == "draft" || s == "posted" || s == "reversed" }

  lemma TransactionAdmitted(db: Db, ledger: Ledger, code: string, t: JournalTransaction)
    requires Represents(db, ledger) && code in ledger
    ensures Admits(db, InsertTransaction(code, TransactionRowOf(t))) <==> t.reference !in References(ledger[code].transactions)
  {
    hide ShowsBooks, ShowsAccounts, ShowsPeriods, ShowsTransactions, ShowsEntries, HasBook, HasTransaction;
    StoredBook(db, ledger, code);
    StoredTransaction(db, ledger, code, t.reference);
    assert StateTextOk(StateText(t.state));
  }

  lemma TransactionRowStep(db: Db, ledger: Ledger, code: string, t: JournalTransaction, context: AuditContext)
    requires Represents(db, ledger) && code in ledger && t.reference !in References(ledger[code].transactions)
    ensures Execute(db, InsertTransaction(code, TransactionRowOf(t)), context).Some?
    ensures Partway(Execute(db, InsertTransaction(code, TransactionRowOf(t)), context).value, ledger, code, t, 0)
  {
    hide ShowsTransactions, ShowsEntries, ShowsLines, BooksAt, AccountsAt, PeriodsAt, Select, Admits, TransactionRowOf;
    hide WithTransaction;
    TransactionAdmitted(db, ledger, code, t);
    TransactionShown(db.transactions, ledger, code, t);
    TransactionFrame(ledger, code, t);
    NoLinesYet(db.entries, ledger, code, t);
  }

  lemma {:induction false} LinesBelow(entries: seq<LedgerEntry>)
    ensures |EntryRowsOf(entries)| == |entries|
    ensures forall i | 0 <= i < |entries| :: EntryRowsOf(entries)[i] == EntryRowOf(i, entries[i])
  {
    if entries != [] { LinesBelow(entries[..|entries| - 1]); }
  }

  /** An entry's row meets the checks of its own columns. */
  lemma EntryRowAdmitted(line: nat, e: LedgerEntry)
    requires e.amount.coeff >= 0 && (e.taxRate.Some? ==> e.taxRate.value.coeff >= 0)
    ensures var r := EntryRowOf(line, e);
            && (r.side == "Dr" || r.side == "Cr")
            && r.amount != "" && !StartsWithMinus(r.amount)
            && (r.taxRate.Some? ==> !StartsWithMinus(r.taxRate.value))
  {
    hide PrintFixed;
    FixedTextRoundTrip(e.amount);
    ValueSign(e.amount);
    if e.taxRate.Some? {
      FixedTextRoundTrip(e.taxRate.value);
      ValueSign(e.taxRate.value);
    }
  }

  predicate Postable(t: JournalTransaction, codes: set<string>) {
    && KnownAccounts(t, codes)
    && forall i | 0 <= i < |t.entries| ::
         t.entries[i].amount.coeff >= 0 && (t.entries[i].taxRate.Some? ==> t.entries[i].taxRate.value.coeff >= 0)
  }

  lemma LineIsNew(db: Db, ledger: Ledger, code: string, t: JournalTransaction, n: nat)
    requires n < |t.entries| && ShowsLines(db.entries, ledger, code, t, n)
    ensures !HasLine(db, code, t.reference, n)
  {
    hide EntryRowOf;
    LinesBelow(t.entries[..n]);
    var rows := Select(db.entries, (code, t.reference));
    assert rows == EntryRowsOf(t.entries[..n]);
    forall i | 0 <= i < n ensures rows[i].lineNo == i { LineNumber(i, t.entries[i]); }
  }

  lemma LineNumber(i: int, e: LedgerEntry)
    ensures EntryRowOf(i, e).lineNo == i && EntryRowOf(i, e).accountCode == e.accountCode
  {}

  lemma LineAdmitted(db: Db, ledger: Ledger, code: string, t: JournalTransaction, n: nat)
    requires code in ledger && n < |t.entries| && Partway(db, ledger, code, t, n)
    requires Postable(t, Codes(ledger[code].accounts))
    ensures Admits(db, InsertEntry(code, t.reference, EntryRowOf(n, t.entries[n])))
  {
    hide ShowsBooks, ShowsAccounts, ShowsPeriods, ShowsTransactions, ShowsLines, EntryRowOf;
    hide HasLine, HasTransaction, HasAccount;
    var after := WithTransaction(ledger, code, t);
    EntryRowAdmitted(n, t.entries[n]);
    LineNumber(n, t.entries[n]);
    LineIsNew(db, ledger, code, t, n);
    StoredTransaction(db, after, code, t.reference);
    assert after[code].transactions[|ledger[code].transactions|] == t;
    assert after[code].accounts == ledger[code].accounts;
    StoredAccount(db, after, code, t.entries[n].accountCode);
  }

  lemma LineShown(table: Table<(string, string), EntryRow>, ledger: Ledger, code: string, t: JournalTransaction, n: nat)
    requires n < |t.entries| && ShowsLines(table, ledger, code, t, n)
    ensures ShowsLines(table + [((code, t.reference), EntryRowOf(n, t.entries[n]))], ledger, code, t, n + 1)
  {
    hide EntryRowOf, EntriesAt;
    SelectAppend(table, (code, t.reference), EntryRowOf(n, t.entries[n]));
    assert t.entries[..n + 1][..n] == t.entries[..n];
  }

  lemma LineStep(db: Db, ledger: Ledger, code: string, t: JournalTransaction, n: nat, context: AuditContext)
    requires code in ledger && n < |t.entries| && Partway(db, ledger, code, t, n)
    requires Postable(t, Codes(ledger[code].accounts))
    ensures Execute(db, InsertEntry(code, t.reference, EntryRowOf(n, t.entries[n])), context).Some?
    ensures Partway(Execute(db, InsertEntry(code, t.reference, EntryRowOf(n, t.entries[n])), context).value, ledger, code, t, n + 1)
  {
    hide ShowsBooks, ShowsAccounts, ShowsPeriods, ShowsTransactions, ShowsLines, EntryRowOf, Admits, Postable;
    hide WithTransaction;
    LineAdmitted(db, ledger, code, t, n);
    LineShown(db.entries, ledger, code, t, n);
  }

  lemma {:induction false} LinesRun(db: Db, ledger: Ledger, code: string, t: JournalTransaction, n: nat, context: AuditContext)
    requires code in ledger && n <= |t.entries| && Partway(db, ledger, code, t, 0)
    requires Postable(t, Codes(ledger[code].accounts))
    ensures var r := ExecuteAll(db, EntryStatements(code, t.reference, t.entries[..n]), context);
            r.Some? && Partway(r.value, ledger, code, t, n)
  {
    hide Partway, Postable;
    if n > 0 {
      LinesRun(db, ledger, code, t, n - 1, context);
      assert t.entries[..n][..n - 1] == t.entries[..n - 1];
      var before := ExecuteAll(db, EntryStatements(code, t.reference, t.entries[..n - 1]), context).value;
      LineStep(before, ledger, code, t, n - 1, context);
      ExecuteAllAppend(db, EntryStatements(code, t.reference, t.entries[..n - 1]),
                       InsertEntry(code, t.reference, EntryRowOf(n - 1, t.entries[n - 1])), context);
    }
  }

  lemma LinesAreEntries(table: Table<(string, string), EntryRow>, ledger: Ledger, code: string, t: JournalTransaction)
    requires code in ledger && ShowsLines(table, ledger, code, t, |t.entries|)
    ensures ShowsEntries(table, WithTransaction(ledger, code, t))
  {
    hide EntryRowsOf, Find, Select;
    assert t.entries[..|t.entries|] == t.entries;
    forall owner ensures Select(table, owner) == EntriesAt(WithTransaction(ledger, code, t), owner) {
      FindAppended(ledger[code].transactions, t, owner.1);
    }
  }

  lemma FirstStatement(db: Db, s: Statement, context: AuditContext)
    ensures ExecuteAll(db, [s], context) == Execute(db, s, context)
  {
    assert [s][..0] == [];
  }

  /** A transaction goes in with all its lines exactly when its reference is new to the book. */
  lemma TransactionStep(db: Db, ledger: Ledger, code: string, t: JournalTransaction, context: AuditContext)
    requires Represents(db, ledger) && code in ledger && Postable(t, Codes(ledger[code].accounts))
    ensures var r := ExecuteAll(db, TransactionStatements(code, t), context);
            && (r.Some? <==> t.reference !in References(ledger[code].transactions))
            && (r.Some? ==> Represents(r.value, WithTransaction(ledger, code, t)))
  {
    hide ShowsBooks, ShowsAccounts, ShowsPeriods, ShowsTransactions, ShowsLines, ShowsEntries, Postable;
    hide EntryStatements, TransactionRowOf, Admits, WithTransaction, References, ExecuteAll;
    var first := InsertTransaction(code, TransactionRowOf(t));
    var lines := EntryStatements(code, t.reference, t.entries);
    ExecuteAllConcat(db, [first], lines, context);
    FirstStatement(db, first, context);
    TransactionAdmitted(db, ledger, code, t);
    if t.reference !in References(ledger[code].transactions) {
      TransactionRowStep(db, ledger, code, t, context);
      var d := Execute(db, first, context).value;
      LinesRun(d, ledger, code, t, |t.entries|, context);
      assert t.entries[..|t.entries|] == t.entries;
      LinesAreEntries(ExecuteAll(d, lines, context).value.entries, ledger, code, t);
    }
  }
}
