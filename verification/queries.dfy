/** Loading a book query by query while the writer commits in between. */
module Queries {
  import opened Model
  import opened Sorting
  import opened Mapping
  import opened Schema
  import opened Commands
  import opened Ledgers
  import opened Loading

  // ---------- What later commands leave alone ----------

  /** Of a book that is there, the book, account and period rows stay as they are, transaction rows are only
      added, and the lines of every transaction that is there stay as they are. */
  ghost predicate Keeps(before: Db, after: Db, code: string) {
    HasBook(before, code) ==>
      && Select(after.books, code) == Select(before.books, code)
      && Select(after.accounts, code) == Select(before.accounts, code)
      && Select(after.periods, code) == Select(before.periods, code)
      && Select(before.transactions, code) <= Select(after.transactions, code)
      && forall reference | HasTransaction(before, code, reference) ::
           Select(after.entries, (code, reference)) == Select(before.entries, (code, reference))
  }

  lemma KeepsSame(db: Db, code: string)
    ensures Keeps(db, db, code)
  {}

  lemma StillThere(before: Db, after: Db, code: string, reference: string)
    requires Keeps(before, after, code) && HasBook(before, code)
    ensures HasBook(after, code)
    ensures HasTransaction(before, code, reference) ==> HasTransaction(after, code, reference)
  {
    assert forall r | r in Select(before.transactions, code) :: r in Select(after.transactions, code);
  }

  lemma KeepsTransitive(a: Db, b: Db, c: Db, code: string)
    requires Keeps(a, b, code) && Keeps(b, c, code)
    ensures Keeps(a, c, code)
  {
    hide Select, HasTransaction;
    if HasBook(a, code) {
      StillThere(a, b, code, "");
      forall reference | HasTransaction(a, code, reference)
        ensures Select(c.entries, (code, reference)) == Select(a.entries, (code, reference))
      {
        StillThere(a, b, code, reference);
      }
    }
  }

  // ---------- Commands keep what is there ----------

  /** Statements of other books leave a book alone. */
  lemma {:induction false} ElsewhereKeeps(db: Db, statements: seq<Statement>, context: AuditContext, code: string)
    requires ExecuteAll(db, statements, context).Some?
    requires forall i | 0 <= i < |statements| :: statements[i].book != code
    ensures Keeps(db, ExecuteAll(db, statements, context).value, code)
  {
    hide Admits, Append, Keeps;
    if statements == [] {
      KeepsSame(db, code);
    } else {
      var n := |statements| - 1;
      ElsewhereKeeps(db, statements[..n], context, code);
      var reached := ExecuteAll(db, statements[..n], context).value;
      OtherRow(reached, statements[n], context, code);
      KeepsTransitive(db, reached, Append(reached, statements[n], context), code);
    }
  }

  lemma OtherRow(db: Db, s: Statement, context: AuditContext, code: string)
    requires s.book != code
    ensures Keeps(db, Append(db, s, context), code)
  {
    hide Select, HasBook, HasTransaction, MaxSeq;
    RowAdded(db, s, context, code);
  }

  /** What one row adds to the tables. */
  lemma RowAdded(db: Db, s: Statement, context: AuditContext, code: string)
    ensures var after := Append(db, s, context);
            && Select(after.books, code) == Select(db.books, code) + (if s.InsertBook? && s.book == code then [s.bookRow] else [])
            && Select(after.accounts, code) == Select(db.accounts, code) + (if s.InsertAccount? && s.book == code then [s.accountRow] else [])
            && Select(after.periods, code) == Select(db.periods, code) + (if s.InsertPeriod? && s.book == code then [s.periodRow] else [])
            && Select(after.transactions, code)
               == Select(db.transactions, code) + (if s.InsertTransaction? && s.book == code then [s.transactionRow] else [])
            && (forall reference ::
                  Select(after.entries, (code, reference)) == Select(db.entries, (code, reference))
                  + (if s.InsertEntry? && s.book == code && s.reference == reference then [s.entryRow] else []))
  {
    hide Select, MaxSeq;
    match s
    case InsertBook(b, r) => SelectAppend(db.books, b, r);
    case InsertAccount(b, r) => SelectAppend(db.accounts, b, r);
    case InsertPeriod(b, r) => SelectAppend(db.periods, b, r);
    case InsertTransaction(b, r) => SelectAppend(db.transactions, b, r);
    case InsertEntry(b, t, r) => SelectAppend(db.entries, (b, t), r);
  }

  /** Lines of a transaction that was not there. */
  lemma {:induction false} LinesKeep(db: Db, book: string, reference: string, entries: seq<LedgerEntry>, context: AuditContext)
    requires ExecuteAll(db, EntryStatements(book, reference, entries), context).Some?
    ensures var after := ExecuteAll(db, EntryStatements(book, reference, entries), context).value;
            && Select(after.books, book) == Select(db.books, book)
            && Select(after.accounts, book) == Select(db.accounts, book)
            && Select(after.periods, book) == Select(db.periods, book)
            && Select(after.transactions, book) == Select(db.transactions, book)
            && forall r | r != reference :: Select(after.entries, (book, r)) == Select(db.entries, (book, r))
  {
    hide Admits, Append, Select, EntryRowOf;
    if entries != [] {
      var n := |entries| - 1;
      var s := InsertEntry(book, reference, EntryRowOf(n, entries[n]));
      LinesKeep(db, book, reference, entries[..n], context);
      ExecuteAllAppend(db, EntryStatements(book, reference, entries[..n]), s, context);
      RowAdded(ExecuteAll(db, EntryStatements(book, reference, entries[..n]), context).value, s, context, book);
    }
  }

  lemma TransactionKeeps(db: Db, book: string, t: JournalTransaction, context: AuditContext, code: string)
    requires ExecuteAll(db, TransactionStatements(book, t), context).Some?
    ensures Keeps(db, ExecuteAll(db, TransactionStatements(book, t), context).value, code)
  {
    hide ExecuteAll, EntryStatements, StateText, Append, Select, Keeps, HasTransaction;
    var first := InsertTransaction(book, TransactionRowOf(t));
    ExecuteAllConcat(db, [first], EntryStatements(book, t.reference, t.entries), context);
    FirstStatement(db, first, context);
    if code == book {
      var reached := Append(db, first, context);
      RowAdded(db, first, context, book);
      LinesKeep(reached, book, t.reference, t.entries, context);
      OwnTransactionKeeps(db, ExecuteAll(db, TransactionStatements(book, t), context).value, book, t.reference);
    } else {
      EntriesElsewhere(book, t.reference, t.entries);
      ElsewhereKeeps(db, TransactionStatements(book, t), context, code);
    }
  }

  lemma OwnTransactionKeeps(before: Db, after: Db, code: string, reference: string)
    requires !HasTransaction(before, code, reference)
    requires Select(after.books, code) == Select(before.books, code)
    requires Select(after.accounts, code) == Select(before.accounts, code)
    requires Select(after.periods, code) == Select(before.periods, code)
    requires Select(before.transactions, code) <= Select(after.transactions, code)
    requires forall r | r != reference :: Select(after.entries, (code, r)) == Select(before.entries, (code, r))
    ensures Keeps(before, after, code)
  {
    hide Select, HasTransaction;
  }

  lemma {:induction false} EntriesElsewhere(book: string, reference: string, entries: seq<LedgerEntry>)
    ensures forall i | 0 <= i < |entries| :: EntryStatements(book, reference, entries)[i].book == book
  {
    hide EntryRowOf;
    if entries != [] { EntriesElsewhere(book, reference, entries[..|entries| - 1]); }
  }

  lemma {:induction false} AccountsElsewhere(book: string, accounts: seq<Account>)
    ensures forall s | s in AccountStatements(book, accounts) :: s.book == book
  {
    hide AccountRowOf;
    if accounts != [] { AccountsElsewhere(book, accounts[..|accounts| - 1]); }
  }

  lemma {:induction false} PeriodsElsewhere(book: string, periods: seq<BookPeriod>)
    ensures forall s | s in PeriodStatements(book, periods) :: s.book == book
  {
    hide PeriodRowOf;
    if periods != [] { PeriodsElsewhere(book, periods[..|periods| - 1]); }
  }

  lemma {:induction false} TransactionsElsewhere(book: string, transactions: seq<JournalTransaction>)
    ensures forall s | s in AllTransactionStatements(book, transactions) :: s.book == book
  {
    hide TransactionRowOf, EntryStatements;
    if transactions != [] {
      var n := |transactions| - 1;
      TransactionsElsewhere(book, transactions[..n]);
      EntriesElsewhere(book, transactions[n].reference, transactions[n].entries);
    }
  }

  lemma BookKeeps(db: Db, b: Book, context: AuditContext, code: string)
    requires ExecuteAll(db, BookStatements(b), context).Some?
    ensures Keeps(db, ExecuteAll(db, BookStatements(b), context).value, code)
  {
    hide ExecuteAll, AccountStatements, PeriodStatements, AllTransactionStatements, BookRowOf, Append, Keeps;
    var first := InsertBook(b.code, BookRowOf(b));
    var rest := AccountStatements(b.code, b.accounts) + PeriodStatements(b.code, b.periods)
                + AllTransactionStatements(b.code, b.transactions);
    assert BookStatements(b) == [first] + rest;
    ExecuteAllConcat(db, [first], rest, context);
    FirstStatement(db, first, context);
    if code == b.code {
      NewBookKeeps(db, ExecuteAll(db, BookStatements(b), context).value, code);
    } else {
      AccountsElsewhere(b.code, b.accounts);
      PeriodsElsewhere(b.code, b.periods);
      TransactionsElsewhere(b.code, b.transactions);
      ElsewhereKeeps(db, BookStatements(b), context, code);
    }
  }

  lemma NewBookKeeps(before: Db, after: Db, code: string)
    requires !HasBook(before, code)
    ensures Keeps(before, after, code)
  {}

  lemma PostKeeps(db: Db, book: string, t: JournalTransaction, context: AuditContext, code: string)
    ensures Keeps(db, Finish(db, Transact(db, TransactionStatements(book, t), context)).0, code)
  {
    hide ExecuteAll, TransactionStatements, ParentsStored, Keeps;
    KeepsSame(db, code);
    if ExecuteAll(db, TransactionStatements(book, t), context).Some? { TransactionKeeps(db, book, t, context, code); }
  }

  lemma CreateKeeps(db: Db, b: Book, context: AuditContext, code: string)
    ensures Keeps(db, CreateBook(db, b, context).0, code)
  {
    hide ExecuteAll, BookStatements, ParentsStored, ChartOk, Keeps;
    KeepsSame(db, code);
    if ExecuteAll(db, BookStatements(b), context).Some? { BookKeeps(db, b, context, code); }
  }

  lemma ReversalKeeps(
    iso: Iso4217, db: Db, book: string, originalRef: string, reversalRef: string, context: AuditContext, code: string)
    ensures Keeps(db, AppendReversal(iso, db, book, originalRef, reversalRef, context).0, code)
  {
    hide Transact, TransactionStatements, ReversalFrom, TransactionPayload, EntryRows, Keeps, Finish;
    KeepsSame(db, code);
    var found := FindRow(Select(db.transactions, book), originalRef);
    if found.Some? {
      var made := ReversalFrom(iso, TransactionPayload(found.value, EntryRows(db, book, originalRef)), originalRef, reversalRef);
      if made.Ok? { PostKeeps(db, book, made.value, context, code); }
    }
  }

  /** No command touches the book, account and period rows of a book that is there, or the lines of a
      transaction that is there. */
  lemma ApplyKeeps(iso: Iso4217, db: Db, c: Command, code: string)
    ensures Keeps(db, Apply(iso, db, c).0, code)
  {
    hide CreateBook, Transact, TransactionStatements, EntriesOk, AppendReversal, Keeps, Finish;
    KeepsSame(db, code);
    match c
    case CreateBookCommand(b, context) => CreateKeeps(db, b, context, code);
    case AppendTransactionCommand(book, t, context) => PostKeeps(db, book, t, context, code);
    case CreateReversalCommand(book, original, reversal, context) =>
      ReversalKeeps(iso, db, book, original, reversal, context, code);
    case AppendResultCommand(book, reference, pack, issues, context) =>
      LogKeeps(db, LegislativeResult(book, reference, pack, issues), context, code);
    case SnapshotCommand(_, _) =>
  }

  lemma LogKeeps(db: Db, payload: Payload, context: AuditContext, code: string)
    ensures Keeps(db, Record(db, payload, context), code)
  {
    hide Select, MaxSeq;
  }

  lemma {:induction false} RunKeeps(iso: Iso4217, first: Db, commands: seq<Command>, k: nat, code: string)
    requires k <= |commands|
    ensures Keeps(Run(iso, first, commands[..k]), Run(iso, first, commands), code)
  {
    hide Keeps, Apply;
    if k == |commands| {
      assert commands[..k] == commands;
      KeepsSame(Run(iso, first, commands), code);
    } else {
      var n := |commands| - 1;
      assert commands[..n][..k] == commands[..k];
      RunKeeps(iso, first, commands[..n], k, code);
      ApplyKeeps(iso, Run(iso, first, commands[..n]), commands[n], code);
      KeepsTransitive(Run(iso, first, commands[..k]), Run(iso, first, commands[..n]), Run(iso, first, commands), code);
    }
  }

  // ---------- One SELECT at a time ----------

  /** The next query of a load, with what the earlier ones returned; lines are read for one transaction row
      after the other. */
  datatype Query =
    | BookQuery
    | AccountsQuery(book: BookRow)
    | PeriodsQuery(book: BookRow, accounts: seq<AccountRow>)
    | TransactionsQuery(book: BookRow, accounts: seq<AccountRow>, periods: seq<PeriodRow>)
    | LinesQuery(book: BookRow, accounts: seq<AccountRow>, periods: seq<PeriodRow>, transactions: seq<TransactionRow>,
                 lines: seq<seq<EntryRow>>)
    | Answered(outcome: LoadOutcome)

  /** The lines by reference; a reference listed twice keeps the later lines. */
  function IndexOf(rows: seq<TransactionRow>, lines: seq<seq<EntryRow>>): (r: EntryIndex)
    requires |rows| == |lines|
    ensures forall row | row in rows :: row.reference in r
  {
    if rows == [] then map[]
    else
      var n := |rows| - 1;
      IndexOf(rows[..n], lines[..n])[rows[n].reference := lines[n]]
  }

  /** With every line read, the book is decoded and checked. */
  function Continue(iso: Iso4217, code: string, q: Query): Query
    requires q.LinesQuery?
  {
    if |q.lines| != |q.transactions| then q
    else
      var entries := IndexOf(q.transactions, q.lines);
      Answered(Checked(BookFromMapping(iso, BookPayload(code, q.book, q.accounts, q.periods, q.transactions, entries))))
  }

  /** One SELECT on the database as it is at that moment. */
  function Ask(iso: Iso4217, db: Db, code: string, q: Query): Query {
    match q
    case BookQuery =>
      var rows := Select(db.books, code);
      if rows == [] then Answered(NoSuchBook) else AccountsQuery(rows[0])
    case AccountsQuery(book) => PeriodsQuery(book, Sort(Select(db.accounts, code), AccountRowLe))
    case PeriodsQuery(book, accounts) => TransactionsQuery(book, accounts, Sort(Select(db.periods, code), PeriodRowLe))
    case TransactionsQuery(book, accounts, periods) =>
      Continue(iso, code, LinesQuery(book, accounts, periods, Sort(Select(db.transactions, code), TransactionRowLe), []))
    case LinesQuery(book, accounts, periods, transactions, lines) =>
      if |lines| >= |transactions| then q
      else
        var row := transactions[|lines|];
        Continue(iso, code, q.(lines := lines + [EntryRows(db, code, row.reference)]))
    case Answered(_) => q
  }

  /** There is a query to come. */
  predicate Unfinished(q: Query) {
    !q.Answered? && (q.LinesQuery? ==> |q.lines| < |q.transactions|)
  }

  /** The queries that are still to come when nothing is committed meanwhile. */
  function QueriesLeft(db: Db, code: string, q: Query): nat {
    var n := |Select(db.transactions, code)|;
    match q
    case BookQuery => 4 + n
    case AccountsQuery(_) => 3 + n
    case PeriodsQuery(_, _) => 2 + n
    case TransactionsQuery(_, _, _) => 1 + n
    case LinesQuery(_, _, _, transactions, lines) => if |lines| <= |transactions| then |transactions| - |lines| else 0
    case Answered(_) => 0
  }

  /** Each query brings the load nearer to its end. */
  lemma AskProgress(iso: Iso4217, db: Db, code: string, q: Query)
    requires Unfinished(q)
    ensures var r := Ask(iso, db, code, q);
            (r.Answered? || Unfinished(r)) && QueriesLeft(db, code, r) < QueriesLeft(db, code, q)
  {
    hide Select, EntryRows, BookPayload, BookFromMapping, Checked, IndexOf;
  }

  /** The answers so far are those of `now`, but for the transaction rows, which are those of `at`; the
      finished load is the load of `at`. */
  ghost predicate Consistent(iso: Iso4217, at: Db, now: Db, code: string, q: Query) {
    && Keeps(at, now, code)
    && (q.AccountsQuery? || q.PeriodsQuery? || q.TransactionsQuery? || q.LinesQuery? ==>
          HasBook(now, code) && q.book == Select(now.books, code)[0])
    && (q.PeriodsQuery? || q.TransactionsQuery? || q.LinesQuery? ==>
          q.accounts == Sort(Select(now.accounts, code), AccountRowLe))
    && (q.TransactionsQuery? || q.LinesQuery? ==> q.periods == Sort(Select(now.periods, code), PeriodRowLe))
    && (q.LinesQuery? ==> HasBook(at, code) && LinesOf(at, code, q.transactions, q.lines))
    && (q.Answered? ==> q.outcome == Load(iso, at, code))
  }

  ghost predicate LinesOf(at: Db, code: string, transactions: seq<TransactionRow>, lines: seq<seq<EntryRow>>) {
    && transactions == Sort(Select(at.transactions, code), TransactionRowLe)
    && |lines| <= |transactions|
    && forall i | 0 <= i < |lines| :: lines[i] == EntryRows(at, code, transactions[i].reference)
  }

  /** A commit between two queries takes nothing from the answers so far. */
  lemma CommitKeepsAnswers(iso: Iso4217, at: Db, now: Db, later: Db, code: string, q: Query)
    requires Consistent(iso, at, now, code, q) && Keeps(now, later, code)
    ensures Consistent(iso, at, later, code, q)
  {
    hide Load, Select, Sort, LinesOf, HasTransaction;
    KeepsTransitive(at, now, later, code);
    if HasBook(now, code) { StillThere(now, later, code, ""); }
  }

  lemma {:induction false} IndexIsRead(db: Db, code: string, rows: seq<TransactionRow>, lines: seq<seq<EntryRow>>)
    requires |rows| == |lines| && forall i | 0 <= i < |lines| :: lines[i] == EntryRows(db, code, rows[i].reference)
    ensures IndexOf(rows, lines) == EntriesByReference(db, code, rows)
  {
    hide EntryRows;
    if rows != [] {
      var n := |rows| - 1;
      IndexIsRead(db, code, rows[..n], lines[..n]);
      assert rows == rows[..n] + [rows[n]];
    }
  }

  /** A load that has read all its lines is the load of the database that gave the transaction rows. */
  lemma ContinueConsistent(iso: Iso4217, at: Db, now: Db, code: string, q: Query)
    requires q.LinesQuery? && Consistent(iso, at, now, code, q)
    ensures Consistent(iso, at, now, code, Continue(iso, code, q))
  {
    hide Select, Sort, EntryRows, BookPayload, BookFromMapping, Checked, EntriesByReference, IndexOf;
    if |q.lines| == |q.transactions| {
      IndexIsRead(at, code, q.transactions, q.lines);
    }
  }

  /** Lines read later are the lines there were. */
  lemma SameLines(at: Db, now: Db, code: string, row: TransactionRow)
    requires Keeps(at, now, code) && HasBook(at, code)
    requires row in Sort(Select(at.transactions, code), TransactionRowLe)
    ensures EntryRows(now, code, row.reference) == EntryRows(at, code, row.reference)
  {
    hide Select, Sort;
    SameElements(Sort(Select(at.transactions, code), TransactionRowLe), Select(at.transactions, code));
  }

  /** The transaction rows have been read, or there is no book to read. */
  predicate HasSource(q: Query) {
    q.LinesQuery? || q.Answered?
  }

  /** The database that a query's transaction rows come from. */
  function Source(at: Db, now: Db, q: Query): Db {
    if HasSource(q) then at else now
  }

  lemma AskConsistent(iso: Iso4217, at: Db, now: Db, code: string, q: Query)
    requires Consistent(iso, at, now, code, q)
    ensures Consistent(iso, Source(at, now, q), now, code, Ask(iso, now, code, q))
  {
    hide Select, Sort, EntryRows, BookPayload, BookFromMapping, Checked, EntriesByReference, IndexOf, Continue, Keeps;
    KeepsSame(now, code);
    match q
    case TransactionsQuery(book, accounts, periods) =>
      ContinueConsistent(iso, now, now, code,
                         LinesQuery(book, accounts, periods, Sort(Select(now.transactions, code), TransactionRowLe), []));
    case LinesQuery(book, accounts, periods, transactions, lines) =>
      if |lines| < |transactions| {
        SameLines(at, now, code, transactions[|lines|]);
        ContinueConsistent(iso, at, now, code, q.(lines := lines + [EntryRows(now, code, transactions[|lines|].reference)]));
      }
    case _ =>
  }

  // ---------- A load across commits ----------

  /** The load after one query on each of these databases. */
  function LoadAcross(iso: Iso4217, code: string, met: seq<Db>): Query {
    if met == [] then BookQuery else Ask(iso, met[|met| - 1], code, LoadAcross(iso, code, met[..|met| - 1]))
  }

  ghost predicate Growing(met: seq<Db>, code: string) {
    forall i, j | 0 <= i <= j < |met| :: Keeps(met[i], met[j], code)
  }

  /** How far n queries get. */
  ghost predicate Stage(met: seq<Db>, code: string, q: Query) {
    var n := |met|;
    if n == 0 then q.BookQuery?
    else if !HasBook(met[0], code) then q.Answered?
    else if n == 1 then q.AccountsQuery?
    else if n == 2 then q.PeriodsQuery?
    else if n == 3 then q.TransactionsQuery?
    else
      if n - 4 < |Select(met[3].transactions, code)| then q.LinesQuery? && |q.lines| == n - 4 else q.Answered?
  }

  /** Where the transaction rows, or the news that there is no book, come from. */
  function SourceOf(met: seq<Db>, code: string): Db
    requires met != []
  {
    if !HasBook(met[0], code) then met[0] else if |met| < 4 then met[|met| - 1] else met[3]
  }

  lemma {:induction false} AcrossConsistent(iso: Iso4217, code: string, met: seq<Db>)
    requires met != [] && Growing(met, code)
    ensures Consistent(iso, SourceOf(met, code), met[|met| - 1], code, LoadAcross(iso, code, met))
    ensures Stage(met, code, LoadAcross(iso, code, met))
  {
    hide Load, Ask, Select, Sort, Keeps, LinesOf;
    var n := |met| - 1;
    var q, now := LoadAcross(iso, code, met[..n]), met[n];
    KeepsSame(now, code);
    if n == 0 {
      NothingAsked(iso, now, code);
      AskConsistent(iso, now, now, code, q);
    } else {
      AcrossConsistent(iso, code, met[..n]);
      CommitKeepsAnswers(iso, SourceOf(met[..n], code), met[n - 1], now, code, q);
      AskConsistent(iso, SourceOf(met[..n], code), now, code, q);
    }
    NextStage(iso, code, met, q);
  }

  lemma NothingAsked(iso: Iso4217, db: Db, code: string)
    ensures Consistent(iso, db, db, code, BookQuery)
  {}

  lemma NextStage(iso: Iso4217, code: string, met: seq<Db>, q: Query)
    requires met != [] && Stage(met[..|met| - 1], code, q)
    requires |met| > 1 ==> Consistent(iso, SourceOf(met[..|met| - 1], code), met[|met| - 1], code, q)
    ensures Stage(met, code, Ask(iso, met[|met| - 1], code, q))
  {
    hide Load, Select, EntryRows, BookPayload, BookFromMapping, Checked, IndexOf, Keeps;
  }

  lemma RunGrows(iso: Iso4217, first: Db, commands: seq<Command>, cuts: seq<nat>, code: string)
    requires Rising(cuts, |commands|)
    ensures Growing(Met(iso, first, commands, cuts), code)
  {
    hide Keeps, Run;
    var met := Met(iso, first, commands, cuts);
    forall i, j | 0 <= i <= j < |met| ensures Keeps(met[i], met[j], code) {
      RunKeeps(iso, first, commands[..cuts[j]], cuts[i], code);
      assert commands[..cuts[j]][..cuts[i]] == commands[..cuts[i]];
    }
  }

  /** Whatever the writer commits between the queries of one load, the load is over after four queries and one
      for each transaction, or after one when there is no book; and it gives what the store held, as a whole,
      when the transaction rows were read. */
  lemma LoadsAcrossCommits(iso: Iso4217, first: Db, commands: seq<Command>, cuts: seq<nat>, code: string)
    requires cuts != [] && Rising(cuts, |commands|)
    ensures var met := Met(iso, first, commands, cuts);
            var q := LoadAcross(iso, code, met);
            if !HasBook(met[0], code) then q == Answered(NoSuchBook)
            else
              && (q.Answered? <==> |cuts| >= 4 && |cuts| - 4 >= |Select(met[3].transactions, code)|)
              && (q.Answered? ==> q.outcome == Load(iso, Run(iso, first, commands[..cuts[3]]), code))
  {
    hide Ask, Sort, Keeps, LinesOf, Run, LoadAcross;
    var met := Met(iso, first, commands, cuts);
    RunGrows(iso, first, commands, cuts, code);
    AcrossConsistent(iso, code, met);
    if !HasBook(met[0], code) { AbsentIsUnknown(iso, met[0], code); }
  }

  lemma AbsentIsUnknown(iso: Iso4217, db: Db, code: string)
    requires !HasBook(db, code)
    ensures Load(iso, db, code) == NoSuchBook
  {
    hide Sort, EntriesByReference, BookPayload, BookFromMapping, Checked;
  }
}
