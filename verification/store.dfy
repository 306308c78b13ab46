/** The store object: one writer connection with its transaction, the audit state its triggers read, and
    the committed database that readers see. */
module Store {
  import opened Text
  import opened Model
  import opened Sorting
  import opened Schema
  import opened Commands
  import opened Ledgers
  import opened Refinement
  import Charts
  import Loading

  const BOOTSTRAP := AuditContext("system", "schema/bootstrap", None)

  class SqliteLedgerStore {
    const iso: Iso4217
    /** What every reader connection sees. */
    var committed: Db
    /** What the writer connection sees inside a transaction. */
    var pending: Db
    /** The actor, reason and session that the triggers record. */
    var auditState: AuditContext

    /** Between writes no transaction is open, and every parent link was checked at its commit. */
    ghost predicate Idle()
      reads this
    {
      pending == committed && ParentsStored(committed)
    }

    constructor (iso: Iso4217)
      ensures this.iso == iso && Idle() && committed == EMPTY && auditState == BOOTSTRAP
    {
      this.iso := iso;
      committed, pending, auditState := EMPTY, EMPTY, BOOTSTRAP;
    }

    // ---------- Statements and transactions ----------

    /** The insert trigger: one log row with the whole row and the current audit state. */
    method FireTrigger(s: Statement)
      modifies this`pending
      ensures pending == Record(old(pending), Inserted(s), auditState)
    {
      pending := Record(pending, Inserted(s), auditState);
    }

    /** One INSERT: a violated constraint leaves the connection's view as it was. */
    method Execute(s: Statement) returns (ok: bool)
      modifies this`pending
      ensures ok <==> Schema.Execute(old(pending), s, auditState).Some?
      ensures pending == if ok then Schema.Execute(old(pending), s, auditState).value else old(pending)
    {
      if !Admits(pending, s) {
        return false;
      }
      pending := AddRow(pending, s);
      FireTrigger(s);
      return true;
    }

    method Rollback()
      modifies this`pending
      ensures pending == committed
    {
      pending := committed;
    }

    /** Checks the deferred links, then makes the transaction visible, or undoes it. */
    method Commit() returns (ok: bool)
      requires ParentsStored(committed)
      modifies this`pending, this`committed
      ensures ok <==> ParentsStored(old(pending))
      ensures Idle() && committed == if ok then old(pending) else old(committed)
    {
      if ParentsStored(pending) {
        committed := pending;
        return true;
      }
      Rollback();
      return false;
    }

    /** Leaves the transaction: commit when all went in, else roll back. */
    method Leave(inserted: bool) returns (outcome: Outcome)
      requires ParentsStored(committed)
      modifies this`pending, this`committed
      ensures Idle()
      ensures outcome == (if inserted && ParentsStored(old(pending)) then Done else Raised(Constraint))
      ensures committed == if outcome == Done then old(pending) else old(committed)
    {
      var ok := false;
      if inserted {
        ok := Commit();
      } else {
        Rollback();
      }
      outcome := if ok then Done else Raised(Constraint);
    }

    // ---------- Rows of a value ----------

    method InsertLines(book: string, t: JournalTransaction) returns (ok: bool)
      modifies this`pending
      ensures ok <==> ExecuteAll(old(pending), EntryStatements(book, t.reference, t.entries), auditState).Some?
      ensures ok ==> Some(pending) == ExecuteAll(old(pending), EntryStatements(book, t.reference, t.entries), auditState)
    {
      hide Admits, Append, EntryRowOf;
      for lineNo := 0 to |t.entries|
        invariant ExecuteAll(old(pending), EntryStatements(book, t.reference, t.entries[..lineNo]), auditState) == Some(pending)
      {
        ghost var before := EntryStatements(book, t.reference, t.entries[..lineNo]);
        var s := InsertEntry(book, t.reference, EntryRowOf(lineNo, t.entries[lineNo]));
        assert t.entries[..lineNo + 1][..lineNo] == t.entries[..lineNo];
        ExecuteAllAppend(old(pending), before, s, auditState);
        var inserted := Execute(s);
        if !inserted {
          RestOfEntries(old(pending), book, t, lineNo + 1, auditState);
          return false;
        }
      }
      assert t.entries[..|t.entries|] == t.entries;
      return true;
    }

    method InsertTransactionRows(book: string, t: JournalTransaction) returns (ok: bool)
      modifies this`pending
      ensures ok <==> ExecuteAll(old(pending), TransactionStatements(book, t), auditState).Some?
      ensures ok ==> Some(pending) == ExecuteAll(old(pending), TransactionStatements(book, t), auditState)
    {
      hide ExecuteAll, EntryStatements, Admits, Append, TransactionRowOf;
      var first := InsertTransaction(book, TransactionRowOf(t));
      ExecuteAllConcat(pending, [first], EntryStatements(book, t.reference, t.entries), auditState);
      FirstStatement(pending, first, auditState);
      ok := Execute(first);
      if ok {
        ok := InsertLines(book, t);
      }
    }

    method InsertAccounts(book: string, accounts: seq<Account>) returns (ok: bool)
      modifies this`pending
      ensures ok <==> ExecuteAll(old(pending), AccountStatements(book, accounts), auditState).Some?
      ensures ok ==> Some(pending) == ExecuteAll(old(pending), AccountStatements(book, accounts), auditState)
    {
      hide Admits, Append, AccountRowOf;
      for i := 0 to |accounts|
        invariant ExecuteAll(old(pending), AccountStatements(book, accounts[..i]), auditState) == Some(pending)
      {
        var s := InsertAccount(book, AccountRowOf(accounts[i]));
        assert accounts[..i + 1][..i] == accounts[..i];
        ExecuteAllAppend(old(pending), AccountStatements(book, accounts[..i]), s, auditState);
        var inserted := Execute(s);
        if !inserted {
          RestOfAccounts(old(pending), book, accounts, i + 1, auditState);
          return false;
        }
      }
      assert accounts[..|accounts|] == accounts;
      return true;
    }

    method InsertPeriods(book: string, periods: seq<BookPeriod>) returns (ok: bool)
      modifies this`pending
      ensures ok <==> ExecuteAll(old(pending), PeriodStatements(book, periods), auditState).Some?
      ensures ok ==> Some(pending) == ExecuteAll(old(pending), PeriodStatements(book, periods), auditState)
    {
      hide Admits, Append, PeriodRowOf;
      for i := 0 to |periods|
        invariant ExecuteAll(old(pending), PeriodStatements(book, periods[..i]), auditState) == Some(pending)
      {
        var s := InsertPeriod(book, PeriodRowOf(periods[i]));
        assert periods[..i + 1][..i] == periods[..i];
        ExecuteAllAppend(old(pending), PeriodStatements(book, periods[..i]), s, auditState);
        var inserted := Execute(s);
        if !inserted {
          RestOfPeriods(old(pending), book, periods, i + 1, auditState);
          return false;
        }
      }
      assert periods[..|periods|] == periods;
      return true;
    }

    method InsertTransactions(book: string, transactions: seq<JournalTransaction>) returns (ok: bool)
      modifies this`pending
      ensures ok <==> ExecuteAll(old(pending), AllTransactionStatements(book, transactions), auditState).Some?
      ensures ok ==> Some(pending) == ExecuteAll(old(pending), AllTransactionStatements(book, transactions), auditState)
    {
      hide ExecuteAll, TransactionStatements;
      NothingToRun(pending, auditState);
      for i := 0 to |transactions|
        invariant ExecuteAll(old(pending), AllTransactionStatements(book, transactions[..i]), auditState) == Some(pending)
      {
        assert transactions[..i + 1][..i] == transactions[..i];
        ExecuteAllConcat(old(pending), AllTransactionStatements(book, transactions[..i]),
                         TransactionStatements(book, transactions[i]), auditState);
        var inserted := InsertTransactionRows(book, transactions[i]);
        if !inserted {
          RestOfTransactions(old(pending), book, transactions, i + 1, auditState);
          return false;
        }
      }
      assert transactions[..|transactions|] == transactions;
      return true;
    }

    method InsertBookRows(b: Book) returns (ok: bool)
      modifies this`pending
      ensures ok <==> ExecuteAll(old(pending), BookStatements(b), auditState).Some?
      ensures ok ==> Some(pending) == ExecuteAll(old(pending), BookStatements(b), auditState)
    {
      hide ExecuteAll, AccountStatements, PeriodStatements, AllTransactionStatements, Admits, Append;
      var first := InsertBook(b.code, BookRowOf(b));
      BookInParts(pending, b, auditState);
      FirstStatement(pending, first, auditState);
      ok := Execute(first);
      if ok {
        ok := InsertAccounts(b.code, b.accounts);
      }
      if ok {
        ok := InsertPeriods(b.code, b.periods);
      }
      if ok {
        ok := InsertTransactions(b.code, b.transactions);
      }
    }

    // ---------- Writes ----------

    /** The whole book goes in, or nothing changes; the audit state is restored either way. */
    method CreateBook(b: Book, context: AuditContext) returns (outcome: Outcome)
      requires Idle()
      modifies this
      ensures Idle() && auditState == old(auditState)
      ensures (committed, outcome) == Commands.CreateBook(old(committed), b, context)
    {
      hide ChartOk, BookStatements, ExecuteAll, ParentsStored;
      var verdict := Charts.ValidateAccountCollection(b.accounts);
      if !verdict.Accepted? {
        return Raised(ChartRejected);
      }
      var previous := auditState;
      auditState := context;
      var inserted := InsertBookRows(b);
      outcome := Leave(inserted);
      auditState := previous;
    }

    method AppendTransaction(book: string, t: JournalTransaction, context: AuditContext) returns (outcome: Outcome)
      requires Idle()
      modifies this
      ensures Idle() && auditState == old(auditState)
      ensures (committed, outcome) == Commands.AppendTransaction(old(committed), book, t, context)
      ensures outcome.Raised? && outcome.error.UnknownAccountCode? ==>
                FirstStranger(t.entries, KnownCodes(old(committed), book), outcome.error.code)
      ensures t.state == Posted && EntriesOk(t.entries) && KnownCodes(old(committed), book) != {} ==>
                forall code | FirstStranger(t.entries, KnownCodes(old(committed), book), code) ::
                  outcome == Raised(UnknownAccountCode(code))
    {
      hide EntriesOk, TransactionStatements, ExecuteAll, ParentsStored, KnownCodes, FirstUnknown;
      if t.state != Posted {
        return Raised(NotPostedError);
      }
      var verdict := Balancing.ValidateTransactionEntries(t.entries);
      if !verdict.Balanced? {
        return Raised(EntriesRejected);
      }
      var known := KnownCodes(pending, book);
      if known == {} {
        return Raised(UnknownBook);
      }
      var unknown := SearchUnknown(t.entries, known);
      forall code ensures FirstStranger(t.entries, known, code) <==> unknown == Some(code) {
        FirstUnknownIs(t.entries, known, code);
      }
      if unknown.Some? {
        return Raised(UnknownAccountCode(unknown.value));
      }
      outcome := WriteTransaction(book, t, context);
    }

    /** Swaps the audit context in, inserts in one SQL transaction, and swaps it back. */
    method WriteTransaction(book: string, t: JournalTransaction, context: AuditContext) returns (outcome: Outcome)
      requires Idle()
      modifies this
      ensures Idle() && auditState == old(auditState)
      ensures (committed, outcome) == Finish(old(committed), Transact(old(committed), TransactionStatements(book, t), context))
    {
      hide TransactionStatements, ExecuteAll, ParentsStored;
      var previous := auditState;
      auditState := context;
      var inserted := InsertTransactionRows(book, t);
      outcome := Leave(inserted);
      auditState := previous;
    }

    method AppendReversal(book: string, originalRef: string, reversalRef: string, context: AuditContext)
      returns (outcome: Outcome)
      requires Idle()
      modifies this
      ensures Idle() && auditState == old(auditState)
      ensures (committed, outcome) == Commands.AppendReversal(iso, old(committed), book, originalRef, reversalRef, context)
    {
      hide TransactionStatements, Transact, ReversalFrom, TransactionPayload, EntryRows, FindRow, HasBook, HasTransaction;
      var found := FindRow(Select(pending.transactions, book), originalRef);
      if found.None? {
        return Raised(if HasBook(pending, book) then UnknownTransaction else UnknownBook);
      }
      if IsReversed(pending, book, originalRef) {
        return Raised(AlreadyReversed);
      }
      if HasTransaction(pending, book, reversalRef) {
        return Raised(ReferenceInUse);
      }
      var lines := EntryRows(pending, book, originalRef);
      var reversal := ReversalFrom(iso, TransactionPayload(found.value, lines), originalRef, reversalRef);
      if reversal.Err? {
        return Raised(Rejected(reversal.fault));
      }
      outcome := WriteTransaction(book, reversal.value, context);
    }

    /** The row is written directly, with the context it is given. */
    method AppendLegislativeResult(
      book: string, reference: string, packCode: string, issues: seq<Issue>, context: AuditContext)
      returns (outcome: Outcome)
      requires Idle()
      modifies this
      ensures Idle() && auditState == old(auditState)
      ensures (committed, outcome) == Commands.AppendResult(old(committed), book, reference, packCode, issues, context)
    {
      var previous := auditState;
      auditState := context;
      pending := Record(pending, LegislativeResult(book, reference, packCode, issues), context);
      outcome := Leave(true);
      auditState := previous;
    }

    /** What the writer thread does with one command. */
    method Dispatch(c: Command) returns (outcome: Outcome)
      requires Idle()
      modifies this
      ensures Idle() && auditState == old(auditState)
      ensures (committed, outcome) == Apply(iso, old(committed), c)
    {
      match c
      case CreateBookCommand(b, context) => outcome := CreateBook(b, context);
      case AppendTransactionCommand(book, t, context) => outcome := AppendTransaction(book, t, context);
      case CreateReversalCommand(book, original, reversal, context) =>
        outcome := AppendReversal(book, original, reversal, context);
      case AppendResultCommand(book, reference, pack, issues, context) =>
        outcome := AppendLegislativeResult(book, reference, pack, issues, context);
      case SnapshotCommand(_, written) => outcome := if written then Done else Raised(FileError);
    }

    // ---------- Reads ----------

    /** One SELECT after the other, then the lines of one transaction after the other; `Queries` has the same
        load with commits in between. */
    method LoadBook(code: string) returns (outcome: Loading.LoadOutcome)
      ensures outcome == Loading.Load(iso, committed, code)
    {
      hide Sort, Select, Loading.BookPayload, Mapping.BookFromMapping, Loading.Checked, EntryRows;
      var bookRows := Select(committed.books, code);
      if bookRows == [] {
        return Loading.NoSuchBook;
      }
      var accounts := Sort(Select(committed.accounts, code), Loading.AccountRowLe);
      var periods := Sort(Select(committed.periods, code), Loading.PeriodRowLe);
      var transactions := Sort(Select(committed.transactions, code), Loading.TransactionRowLe);
      var entries: Loading.EntryIndex := map[];
      for i := 0 to |transactions|
        invariant entries == Loading.EntriesByReference(committed, code, transactions[..i])
      {
        var reference := transactions[i].reference;
        entries := entries[reference := EntryRows(committed, code, reference)];
        assert transactions[..i + 1] == transactions[..i] + [transactions[i]];
      }
      assert transactions[..|transactions|] == transactions;
      outcome := Loading.Checked(Mapping.BookFromMapping(
        iso, Loading.BookPayload(code, bookRows[0], accounts, periods, transactions, entries)));
    }
  }

  // ---------- Statement lists ----------

  lemma BookInParts(db: Db, b: Book, context: AuditContext)
    ensures ExecuteAll(db, BookStatements(b), context)
         == match ExecuteAll(db, [InsertBook(b.code, BookRowOf(b))], context)
            case None => None
            case Some(d0) =>
              match ExecuteAll(d0, AccountStatements(b.code, b.accounts), context)
              case None => None
              case Some(d1) =>
                match ExecuteAll(d1, PeriodStatements(b.code, b.periods), context)
                case None => None
                case Some(d2) => ExecuteAll(d2, AllTransactionStatements(b.code, b.transactions), context)
  {
    hide ExecuteAll, AccountStatements, PeriodStatements, AllTransactionStatements;
    var first := [InsertBook(b.code, BookRowOf(b))];
    var accounts := AccountStatements(b.code, b.accounts);
    var periods := PeriodStatements(b.code, b.periods);
    ExecuteAllConcat(db, first, accounts, context);
    ExecuteAllConcat(db, first + accounts, periods, context);
    ExecuteAllConcat(db, first + accounts + periods, AllTransactionStatements(b.code, b.transactions), context);
  }

  /** A list that fails early fails as a whole. */
  lemma {:induction false} RestOfEntries(db: Db, book: string, t: JournalTransaction, n: nat, context: AuditContext)
    requires n <= |t.entries| && ExecuteAll(db, EntryStatements(book, t.reference, t.entries[..n]), context).None?
    ensures ExecuteAll(db, EntryStatements(book, t.reference, t.entries), context).None?
    decreases |t.entries| - n
  {
    hide Admits, Append, EntryRowOf;
    if n < |t.entries| {
      assert t.entries[..n + 1][..n] == t.entries[..n];
      ExecuteAllAppend(db, EntryStatements(book, t.reference, t.entries[..n]),
                       InsertEntry(book, t.reference, EntryRowOf(n, t.entries[n])), context);
      RestOfEntries(db, book, t, n + 1, context);
    } else {
      assert t.entries[..n] == t.entries;
    }
  }

  lemma {:induction false} RestOfAccounts(db: Db, book: string, accounts: seq<Account>, n: nat, context: AuditContext)
    requires n <= |accounts| && ExecuteAll(db, AccountStatements(book, accounts[..n]), context).None?
    ensures ExecuteAll(db, AccountStatements(book, accounts), context).None?
    decreases |accounts| - n
  {
    hide Admits, Append, AccountRowOf;
    if n < |accounts| {
      assert accounts[..n + 1][..n] == accounts[..n];
      ExecuteAllAppend(db, AccountStatements(book, accounts[..n]), InsertAccount(book, AccountRowOf(accounts[n])), context);
      RestOfAccounts(db, book, accounts, n + 1, context);
    } else {
      assert accounts[..n] == accounts;
    }
  }

  lemma {:induction false} RestOfPeriods(db: Db, book: string, periods: seq<BookPeriod>, n: nat, context: AuditContext)
    requires n <= |periods| && ExecuteAll(db, PeriodStatements(book, periods[..n]), context).None?
    ensures ExecuteAll(db, PeriodStatements(book, periods), context).None?
    decreases |periods| - n
  {
    hide Admits, Append, PeriodRowOf;
    if n < |periods| {
      assert periods[..n + 1][..n] == periods[..n];
      ExecuteAllAppend(db, PeriodStatements(book, periods[..n]), InsertPeriod(book, PeriodRowOf(periods[n])), context);
      RestOfPeriods(db, book, periods, n + 1, context);
    } else {
      assert periods[..n] == periods;
    }
  }

  lemma {:induction false} RestOfTransactions(
    db: Db, book: string, transactions: seq<JournalTransaction>, n: nat, context: AuditContext)
    requires n <= |transactions| && ExecuteAll(db, AllTransactionStatements(book, transactions[..n]), context).None?
    ensures ExecuteAll(db, AllTransactionStatements(book, transactions), context).None?
    decreases |transactions| - n
  {
    hide ExecuteAll, TransactionStatements;
    if n < |transactions| {
      assert transactions[..n + 1][..n] == transactions[..n];
      ExecuteAllConcat(db, AllTransactionStatements(book, transactions[..n]),
                       TransactionStatements(book, transactions[n]), context);
      RestOfTransactions(db, book, transactions, n + 1, context);
    } else {
      assert transactions[..n] == transactions;
    }
  }

  /** `for entry in entries: if entry.account_code not in known: raise`. */
  method SearchUnknown(entries: seq<LedgerEntry>, known: set<string>) returns (unknown: Option<string>)
    ensures unknown == FirstUnknown(entries, known)
    ensures forall code :: unknown == Some(code) <==> FirstStranger(entries, known, code)
  {
    forall code ensures FirstUnknown(entries, known) == Some(code) <==> FirstStranger(entries, known, code) {
      FirstUnknownIs(entries, known, code);
    }
    for i := 0 to |entries|
      invariant FirstUnknown(entries, known) == FirstUnknown(entries[i..], known)
    {
      if entries[i].accountCode !in known {
        return Some(entries[i].accountCode);
      }
      assert entries[i..][1..] == entries[i + 1..];
    }
    return None;
  }
}
