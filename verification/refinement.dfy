/** The store refines the abstract ledger: every operation has, on the tables, the effect and the
    outcome that a plain operation on books has, for every run. */
module Refinement {
  import opened Text
  import opened Decimals
  import opened Model
  import opened Sorting
  import opened Sequences
  import opened Mapping
  import opened Schema
  import opened Commands
  import opened Ledgers
  import opened Balancing

  // ---------- Operations on books ----------

  function LedgerCreate(ledger: Ledger, b: Book): (Ledger, Outcome) {
    if b.code in ledger || !DistinctReferences(b.transactions) then (ledger, Raised(Constraint))
    else (ledger[b.code := b], Done)
  }

  /** Adds a transaction under a reference that the book does not use yet. */
  function LedgerPost(ledger: Ledger, code: string, t: JournalTransaction): (Ledger, Outcome)
    requires code in ledger
  {
    if t.reference in References(ledger[code].transactions) then (ledger, Raised(Constraint))
    else (WithTransaction(ledger, code, t), Done)
  }

  /** A book without accounts is reported as unknown. */
  function LedgerAppend(ledger: Ledger, code: string, t: JournalTransaction): (Ledger, Outcome) {
    if t.state != Posted then (ledger, Raised(NotPostedError))
    else if code !in ledger || ledger[code].accounts == [] then (ledger, Raised(UnknownBook))
    else
      match FirstUnknown(t.entries, Codes(ledger[code].accounts))
      case Some(account) => (ledger, Raised(UnknownAccountCode(account)))
      case None => LedgerPost(ledger, code, t)
  }

  /** The same entries on the other side, under the original's date and period. */
  function ContraOf(t: JournalTransaction, reference: string): JournalTransaction {
    JournalTransaction(reference, t.postedAt, "Reversal of " + t.reference,
                       MapSeq(MapSeq(t.entries, CanonicalEntry), Invert), t.period, Posted, Some(t.reference))
  }

  predicate Reverses(transactions: seq<JournalTransaction>, reference: string) {
    exists i | 0 <= i < |transactions| :: transactions[i].reversalOf == Some(reference)
  }

  /** What append_reversal posts, when nothing stands in its way. */
  function ReversalPost(ledger: Ledger, code: string, originalRef: string, reversalRef: string): Option<JournalTransaction> {
    if code !in ledger then None
    else
      match Find(ledger[code].transactions, originalRef)
      case None => None
      case Some(t) =>
        match RequireText(reversalRef) case None => None case Some(r) => Some(ContraOf(t, r))
  }

  /** The reference is compared as given first and trimmed only when the reversal is built. */
  function ReversalRefusal(ledger: Ledger, code: string, originalRef: string, reversalRef: string): (r: Option<StoreError>)
    ensures r.None? ==> code in ledger && ReversalPost(ledger, code, originalRef, reversalRef).Some?
  {
    if code !in ledger then Some(UnknownBook)
    else
      var transactions := ledger[code].transactions;
      match Find(transactions, originalRef)
      case None => Some(UnknownTransaction)
      case Some(t) =>
        if Reverses(transactions, originalRef) then Some(AlreadyReversed)
        else if reversalRef in References(transactions) then Some(ReferenceInUse)
        else
          match RequireText(reversalRef)
          case None => Some(Rejected(ValueError(BlankText)))
          case Some(r) => if r == originalRef then Some(Rejected(ValueError(SelfReversal))) else None
  }

  function LedgerReverse(ledger: Ledger, code: string, originalRef: string, reversalRef: string): (Ledger, Outcome) {
    match ReversalRefusal(ledger, code, originalRef, reversalRef)
    case Some(error) => (ledger, Raised(error))
    case None => LedgerPost(ledger, code, ReversalPost(ledger, code, originalRef, reversalRef).value)
  }

  function LedgerApply(ledger: Ledger, c: Command): (Ledger, Outcome) {
    match c
    case CreateBookCommand(b, _) => LedgerCreate(ledger, b)
    case AppendTransactionCommand(book, t, _) => LedgerAppend(ledger, book, t)
    case CreateReversalCommand(book, original, reversal, _) => LedgerReverse(ledger, book, original, reversal)
    case AppendResultCommand(_, _, _, _, _) => (ledger, Done)
    case SnapshotCommand(_, written) => (ledger, if written then Done else Raised(FileError))
  }

  function LedgerRun(commands: seq<Command>): Ledger {
    if commands == [] then map[]
    else LedgerApply(LedgerRun(commands[..|commands| - 1]), commands[|commands| - 1]).0
  }

  // ---------- Creating a book ----------

  lemma FreshCode(accounts: seq<Account>, n: nat)
    requires n < |accounts| && UniqueCodes(accounts)
    ensures accounts[n].code !in Codes(accounts[..n])
  {}

  lemma FreshPeriod(periods: seq<BookPeriod>, n: nat)
    requires n < |periods| && PeriodsOk(periods)
    ensures periods[n].period !in FiscalPeriods(periods[..n])
  {
    forall i | 0 <= i < n ensures periods[..n][i].period != periods[n].period {
      assert Apart(periods[i], periods[n]);
    }
  }

  lemma {:induction false} AccountsRun(db: Db, ledger: Ledger, b: Book, n: nat, context: AuditContext)
    requires n <= |b.accounts| && UniqueCodes(b.accounts) && Represents(db, ledger[b.code := Bare(b)])
    ensures var r := ExecuteAll(db, AccountStatements(b.code, b.accounts[..n]), context);
            r.Some? && Represents(r.value, ledger[b.code := Bare(b).(accounts := b.accounts[..n])])
  {
    hide Represents, UniqueCodes, Codes, AccountRowOf, Admits;
    if n > 0 {
      FreshCode(b.accounts, n - 1);
      var init, a := b.accounts[..n - 1], b.accounts[n - 1];
      AccountsRun(db, ledger, b, n - 1, context);
      assert b.accounts[..n] == init + [a] && b.accounts[..n][..n - 1] == init;
      var before := ledger[b.code := Bare(b).(accounts := init)];
      AccountStep(ExecuteAll(db, AccountStatements(b.code, init), context).value, before, b.code, a, context);
      assert WithAccount(before, b.code, a) == ledger[b.code := Bare(b).(accounts := b.accounts[..n])];
      ExecuteAllAppend(db, AccountStatements(b.code, init), InsertAccount(b.code, AccountRowOf(a)), context);
    }
  }

  lemma {:induction false} PeriodsRun(db: Db, ledger: Ledger, b: Book, n: nat, context: AuditContext)
    requires n <= |b.periods| && PeriodsOk(b.periods)
    requires forall i | 0 <= i < |b.periods| :: BookPeriodOk(b.periods[i])
    requires Represents(db, ledger[b.code := b.(periods := [], transactions := [])])
    ensures var r := ExecuteAll(db, PeriodStatements(b.code, b.periods[..n]), context);
            r.Some? && Represents(r.value, ledger[b.code := b.(periods := b.periods[..n], transactions := [])])
  {
    hide Represents, PeriodsOk, FiscalPeriods, PeriodRowOf, Admits;
    if n > 0 {
      FreshPeriod(b.periods, n - 1);
      var init, p := b.periods[..n - 1], b.periods[n - 1];
      PeriodsRun(db, ledger, b, n - 1, context);
      assert b.periods[..n] == init + [p] && b.periods[..n][..n - 1] == init;
      var before := ledger[b.code := b.(periods := init, transactions := [])];
      PeriodStep(ExecuteAll(db, PeriodStatements(b.code, init), context).value, before, b.code, p, context);
      assert WithPeriod(before, b.code, p) == ledger[b.code := b.(periods := b.periods[..n], transactions := [])];
      ExecuteAllAppend(db, PeriodStatements(b.code, init), InsertPeriod(b.code, PeriodRowOf(p)), context);
    }
  }

  lemma DistinctAppend(transactions: seq<JournalTransaction>, t: JournalTransaction)
    ensures DistinctReferences(transactions + [t])
            <==> DistinctReferences(transactions) && t.reference !in References(transactions)
  {
    var all := transactions + [t];
    if DistinctReferences(all) {
      forall i | 0 <= i < |transactions| ensures transactions[i].reference != t.reference {
        assert all[i].reference != all[|transactions|].reference;
      }
      forall i, j | 0 <= i < j < |transactions| ensures transactions[i].reference != transactions[j].reference {
        assert all[i].reference != all[j].reference;
      }
    }
  }

  lemma PostableOk(iso: Iso4217, t: JournalTransaction, codes: set<string>)
    requires TransactionOk(iso, t) && KnownAccounts(t, codes)
    ensures Postable(t, codes)
  {
    forall i | 0 <= i < |t.entries|
      ensures t.entries[i].amount.coeff >= 0 && (t.entries[i].taxRate.Some? ==> t.entries[i].taxRate.value.coeff >= 0)
    {
      assert EntryOk(iso, t.entries[i]);
    }
  }

  lemma {:induction false} TransactionsRun(db: Db, ledger: Ledger, b: Book, n: nat, context: AuditContext)
    requires n <= |b.transactions|
    requires forall i | 0 <= i < |b.transactions| :: Postable(b.transactions[i], Codes(b.accounts))
    requires Represents(db, ledger[b.code := b.(transactions := [])])
    ensures var r := ExecuteAll(db, AllTransactionStatements(b.code, b.transactions[..n]), context);
            && (r.Some? <==> DistinctReferences(b.transactions[..n]))
            && (r.Some? ==> Represents(r.value, ledger[b.code := b.(transactions := b.transactions[..n])]))
  {
    hide Represents, Postable, DistinctReferences, References, TransactionStatements, ExecuteAll, Codes;
    if n == 0 {
      NothingToRun(db, context);
      assert b.transactions[..0] == [];
    } else {
      var init, t := b.transactions[..n - 1], b.transactions[n - 1];
      TransactionsRun(db, ledger, b, n - 1, context);
      assert b.transactions[..n] == init + [t] && b.transactions[..n][..n - 1] == init;
      DistinctAppend(init, t);
      ExecuteAllConcat(db, AllTransactionStatements(b.code, init), TransactionStatements(b.code, t), context);
      var reached := ExecuteAll(db, AllTransactionStatements(b.code, init), context);
      if reached.Some? {
        var before := ledger[b.code := b.(transactions := init)];
        TransactionStep(reached.value, before, b.code, t, context);
        assert WithTransaction(before, b.code, t) == ledger[b.code := b.(transactions := b.transactions[..n])];
      }
    }
  }

  lemma NothingToRun(db: Db, context: AuditContext)
    ensures ExecuteAll(db, [], context) == Some(db) && DistinctReferences([])
  {}

  /** The statements of a book in a ledger that lacks it: all go in exactly when references are distinct. */
  lemma BookRun(db: Db, ledger: Ledger, b: Book, context: AuditContext)
    requires Represents(db, ledger) && b.code !in ledger && 1 <= b.startMonth <= 12
    requires UniqueCodes(b.accounts) && PeriodsOk(b.periods)
    requires forall i | 0 <= i < |b.periods| :: BookPeriodOk(b.periods[i])
    requires forall i | 0 <= i < |b.transactions| :: Postable(b.transactions[i], Codes(b.accounts))
    ensures var r := ExecuteAll(db, BookStatements(b), context);
            && (r.Some? <==> DistinctReferences(b.transactions))
            && (r.Some? ==> Represents(r.value, ledger[b.code := b]))
  {
    hide Represents, Postable, DistinctReferences, UniqueCodes, PeriodsOk, ExecuteAll;
    hide AccountStatements, PeriodStatements, AllTransactionStatements;
    var first := [InsertBook(b.code, BookRowOf(b))];
    var accounts := AccountStatements(b.code, b.accounts);
    var periods := PeriodStatements(b.code, b.periods);
    var transactions := AllTransactionStatements(b.code, b.transactions);
    ExecuteAllConcat(db, first, accounts, context);
    ExecuteAllConcat(db, first + accounts, periods, context);
    ExecuteAllConcat(db, first + accounts + periods, transactions, context);
    FirstStatement(db, first[0], context);
    BookStep(db, ledger, b, context);
    var d0 := ExecuteAll(db, first, context).value;
    assert b.accounts[..|b.accounts|] == b.accounts && b.periods[..|b.periods|] == b.periods;
    assert b.transactions[..|b.transactions|] == b.transactions;
    AccountsRun(d0, ledger, b, |b.accounts|, context);
    var d1 := ExecuteAll(d0, accounts, context).value;
    PeriodsRun(d1, ledger, b, |b.periods|, context);
    var d2 := ExecuteAll(d1, periods, context).value;
    TransactionsRun(d2, ledger, b, |b.transactions|, context);
  }

  lemma BookTaken(db: Db, b: Book, context: AuditContext)
    requires HasBook(db, b.code)
    ensures ExecuteAll(db, BookStatements(b), context).None?
  {
    hide AccountStatements, PeriodStatements, AllTransactionStatements, HasBook, ExecuteAll;
    var first := [InsertBook(b.code, BookRowOf(b))];
    var accounts := AccountStatements(b.code, b.accounts);
    var periods := PeriodStatements(b.code, b.periods);
    var transactions := AllTransactionStatements(b.code, b.transactions);
    ExecuteAllConcat(db, first, accounts, context);
    ExecuteAllConcat(db, first + accounts, periods, context);
    ExecuteAllConcat(db, first + accounts + periods, transactions, context);
    FirstStatement(db, first[0], context);
  }

  /** Creating a valid book succeeds exactly when its code is new and its references are distinct:
      no other key, check or link can fail, whatever the order of its accounts. */
  lemma CreateRefines(iso: Iso4217, db: Db, ledger: Ledger, b: Book, context: AuditContext)
    requires Represents(db, ledger) && LedgerOk(iso, ledger) && BookOk(iso, b)
    ensures var (after, outcome) := LedgerCreate(ledger, b);
            && CreateBook(db, b, context).1 == outcome
            && Represents(CreateBook(db, b, context).0, after) && LedgerOk(iso, after)
            && (outcome != Done ==> CreateBook(db, b, context).0 == db)
  {
    hide Represents, ShowsBooks, DistinctReferences, ExecuteAll, BookStatements, TransactionOk, ParentsStored, ChartOk, PeriodsOk;
    if b.code in ledger {
      TakenCode(db, ledger, b.code);
      BookTaken(db, b, context);
    } else {
      ChartUnique(b.accounts);
      forall i | 0 <= i < |b.transactions| ensures Postable(b.transactions[i], Codes(b.accounts)) {
        PostableOk(iso, b.transactions[i], Codes(b.accounts));
      }
      BookRun(db, ledger, b, context);
      var after := ledger[b.code := b];
      if DistinctReferences(b.transactions) {
        CommitPasses(iso, ExecuteAll(db, BookStatements(b), context).value, after);
      }
    }
  }

  lemma ChartUnique(accounts: seq<Account>)
    requires ChartOk(accounts)
    ensures UniqueCodes(accounts)
  {}

  lemma TakenCode(db: Db, ledger: Ledger, code: string)
    requires Represents(db, ledger)
    ensures HasBook(db, code) <==> code in ledger
  {
    StoredBook(db, ledger, code);
  }

  lemma CommitPasses(iso: Iso4217, db: Db, ledger: Ledger)
    requires Represents(db, ledger) && LedgerOk(iso, ledger)
    ensures ParentsStored(db)
  {
    ParentsAreStored(iso, db, ledger);
  }

  // ---------- Appending a transaction ----------

  lemma KnownCodesAre(db: Db, ledger: Ledger, code: string)
    requires Represents(db, ledger)
    ensures KnownCodes(db, code) == if code in ledger then Codes(ledger[code].accounts) else {}
  {
    hide AccountRowOf;
    assert Select(db.accounts, code) == AccountsAt(ledger, code);
    if code in ledger {
      forall c ensures c in KnownCodes(db, code) <==> c in Codes(ledger[code].accounts) {
        AccountKeys(ledger[code].accounts, c);
      }
    }
  }

  lemma CodesEmpty(accounts: seq<Account>)
    ensures Codes(accounts) == {} <==> accounts == []
  {
    if accounts != [] { assert accounts[0].code in Codes(accounts); }
  }

  lemma PostKeepsLedger(iso: Iso4217, ledger: Ledger, code: string, t: JournalTransaction)
    requires LedgerOk(iso, ledger) && code in ledger
    requires TransactionOk(iso, t) && t.state == Posted && KnownAccounts(t, Codes(ledger[code].accounts))
    requires t.reference !in References(ledger[code].transactions)
    ensures LedgerOk(iso, WithTransaction(ledger, code, t))
  {
    hide TransactionOk, ChartOk, PeriodsOk, AccountOk, BookPeriodOk, DistinctReferences, References, KnownAccounts;
    DistinctAppend(ledger[code].transactions, t);
  }

  /** One transaction with its lines, in one SQL transaction. */
  lemma PostRefines(iso: Iso4217, db: Db, ledger: Ledger, code: string, t: JournalTransaction, context: AuditContext)
    requires Represents(db, ledger) && LedgerOk(iso, ledger) && code in ledger
    requires TransactionOk(iso, t) && t.state == Posted && KnownAccounts(t, Codes(ledger[code].accounts))
    ensures var (after, outcome) := LedgerPost(ledger, code, t);
            var written := Finish(db, Transact(db, TransactionStatements(code, t), context));
            && written.1 == outcome && Represents(written.0, after) && LedgerOk(iso, after)
            && (outcome != Done ==> written.0 == db)
  {
    hide Represents, LedgerOk, TransactionOk, KnownAccounts, ExecuteAll, TransactionStatements, ParentsStored, References, WithTransaction;
    PostableOk(iso, t, Codes(ledger[code].accounts));
    TransactionStep(db, ledger, code, t, context);
    if t.reference !in References(ledger[code].transactions) {
      PostKeepsLedger(iso, ledger, code, t);
      CommitPasses(iso, ExecuteAll(db, TransactionStatements(code, t), context).value, WithTransaction(ledger, code, t));
    }
  }

  lemma AppendRefines(iso: Iso4217, db: Db, ledger: Ledger, code: string, t: JournalTransaction, context: AuditContext)
    requires Represents(db, ledger) && LedgerOk(iso, ledger) && TransactionOk(iso, t)
    ensures var (after, outcome) := LedgerAppend(ledger, code, t);
            var written := AppendTransaction(db, code, t, context);
            && written.1 == outcome && Represents(written.0, after) && LedgerOk(iso, after)
            && (outcome != Done ==> written.0 == db)
  {
    hide Represents, LedgerOk, Transact, TransactionStatements, KnownCodes, LedgerPost, EntryOk, EntriesOk, Codes;
    KnownCodesAre(db, ledger, code);
    if code in ledger {
      CodesEmpty(ledger[code].accounts);
      if t.state == Posted && FirstUnknown(t.entries, Codes(ledger[code].accounts)).None? {
        PostRefines(iso, db, ledger, code, t, context);
      }
    }
  }

  // ---------- Appending a reversal ----------

  lemma {:induction false} FlippedTotal(entries: seq<LedgerEntry>, side: PostingSide, currency: string)
    ensures Total(MapSeq(entries, Invert), side, currency) == Total(entries, Flip(side), currency)
  {
    hide MapSeq, Value;
    if entries == [] {
      MapSeqEmpty(entries, Invert);
    } else {
      FlippedTotal(entries[..|entries| - 1], side, currency);
      MapSeqInit(entries, Invert);
    }
  }

  /** Swapping sides negates the net of every currency, so balanced entries stay balanced. */
  lemma InvertedBalance(entries: seq<LedgerEntry>)
    ensures forall c :: Net(MapSeq(entries, Invert), c) == -Net(entries, c)
    ensures EntriesOk(entries) ==> EntriesOk(MapSeq(entries, Invert))
  {
    forall c ensures Net(MapSeq(entries, Invert), c) == -Net(entries, c) {
      FlippedTotal(entries, Debit, c);
      FlippedTotal(entries, Credit, c);
    }
    EntriesOkMeans(entries);
    EntriesOkMeans(MapSeq(entries, Invert));
  }

  /** Inverting twice gives the entries back. */
  lemma InvertTwice(entries: seq<LedgerEntry>)
    ensures MapSeq(MapSeq(entries, Invert), Invert) == entries
  {}

  lemma ReversalDescription(reference: string)
    requires NonBlank(reference)
    ensures NonBlank("Reversal of " + reference)
  {
    var d := "Reversal of " + reference;
    assert d[0] == 'R' && d[|d| - 1] == reference[|reference| - 1];
  }

  lemma ReversalOk(iso: Iso4217, t: JournalTransaction, reference: string)
    requires TransactionOk(iso, t) && t.state == Posted && NonBlank(reference) && reference != t.reference
    ensures TransactionOk(iso, ContraOf(t, reference)) && ContraOf(t, reference).state == Posted
  {
    hide NonBlank, EntriesOk, EntryOk;
    CanonicalTransactionOk(iso, t);
    InvertedOk(iso, MapSeq(t.entries, CanonicalEntry));
    InvertedBalance(MapSeq(t.entries, CanonicalEntry));
    ReversalDescription(t.reference);
  }

  /** What reversing a transaction under a reference gives. */
  function ReversalOutcome(t: JournalTransaction, reversalRef: string): Result<JournalTransaction> {
    match RequireText(reversalRef)
    case None => Err(ValueError(BlankText))
    case Some(r) => if r == t.reference then Err(ValueError(SelfReversal)) else Ok(ContraOf(t, r))
  }

  /** The constructor on fields that are in order but for the reference. */
  lemma TransactionMade(iso: Iso4217, raw: JournalTransaction, originalRef: string)
    requires forall i | 0 <= i < |raw.entries| :: EntryOk(iso, raw.entries[i])
    requires raw.period.Some? ==> FiscalPeriodOk(raw.period.value)
    requires NonBlank(raw.description) && raw.reversalOf == Some(originalRef) && NonBlank(originalRef)
    requires raw.state == Posted && EntriesOk(raw.entries)
    ensures MakeTransaction(iso, raw)
         == match RequireText(raw.reference)
            case None => Err(ValueError(BlankText))
            case Some(r) => if r == originalRef then Err(ValueError(SelfReversal)) else Ok(raw.(reference := r))
  {
    hide NonBlank, EntriesOk, EntryOk, RequireText, FiscalPeriodOk, TransactionOk;
  }

  lemma ReversalMade(iso: Iso4217, t: JournalTransaction, stored: JournalTransaction, reversalRef: string)
    requires TransactionOk(iso, t) && t.state == Posted && stored == CanonicalTransaction(t)
    requires forall i | 0 <= i < |stored.entries| :: EntryOk(iso, stored.entries[i])
    requires stored.period.Some? ==> FiscalPeriodOk(stored.period.value)
    ensures MakeReversal(iso, stored, t.reference, reversalRef) == ReversalOutcome(t, reversalRef)
  {
    hide NonBlank, EntriesOk, EntryOk, RequireText, FiscalPeriodOk, MakeTransaction, MapSeq;
    CanonicalTransactionOk(iso, t);
    ReversalDescription(t.reference);
    InvertedOk(iso, stored.entries);
    InvertedBalance(stored.entries);
    TransactionMade(iso, JournalTransaction(reversalRef, stored.postedAt, "Reversal of " + t.reference,
                                            MapSeq(stored.entries, Invert), stored.period, Posted, Some(t.reference)),
                    t.reference);
  }

  lemma CanonicalParts(iso: Iso4217, t: JournalTransaction)
    requires TransactionOk(iso, t)
    ensures var stored := CanonicalTransaction(t);
            && (forall i | 0 <= i < |stored.entries| :: EntryOk(iso, stored.entries[i]))
            && (stored.period.Some? ==> FiscalPeriodOk(stored.period.value))
  {
    hide NonBlank, EntriesOk, EntryOk, FiscalPeriodOk, CanonicalTransaction;
    CanonicalTransactionOk(iso, t);
  }

  lemma LinesInOrder(entries: seq<LedgerEntry>)
    ensures Sort(EntryRowsOf(entries), LineLe) == EntryRowsOf(entries)
  {
    hide EntryRowOf;
    LinesBelow(entries);
    forall i | 0 <= i < |entries| ensures EntryRowsOf(entries)[i].lineNo == i { LineNumber(i, entries[i]); }
    SortKeepsSorted(EntryRowsOf(entries), LineLe);
  }

  lemma EntryPayloads(entries: seq<LedgerEntry>)
    ensures MapSeq(EntryRowsOf(entries), EntryPayload) == MapSeq(entries, EntryToMapping)
  {
    LinesBelow(entries);
    forall i | 0 <= i < |entries| ensures EntryPayload(EntryRowsOf(entries)[i]) == EntryToMapping(entries[i]) {}
  }

  /** The rows of a transaction read as exactly the mapping that the transaction serializes to. */
  lemma TransactionPayloads(t: JournalTransaction)
    ensures TransactionPayload(TransactionRowOf(t), EntryRowsOf(t.entries)) == TransactionToMapping(t)
  {
    hide MapSeq, EntryRowsOf, StateText;
    EntryPayloads(t.entries);
  }

  lemma StoredLines(db: Db, ledger: Ledger, code: string, t: JournalTransaction)
    requires Represents(db, ledger) && code in ledger && Find(ledger[code].transactions, t.reference) == Some(t)
    ensures EntryRows(db, code, t.reference) == EntryRowsOf(t.entries)
  {
    hide EntryRowsOf, Sort;
    assert Select(db.entries, (code, t.reference)) == EntriesAt(ledger, (code, t.reference));
    LinesInOrder(t.entries);
  }

  lemma RowFound(transactions: seq<JournalTransaction>, reference: string)
    requires DistinctReferences(transactions)
    ensures FindRow(MapSeq(transactions, TransactionRowOf), reference)
         == match Find(transactions, reference) case None => None case Some(t) => Some(TransactionRowOf(t))
  {
    hide StateText;
    var rows := MapSeq(transactions, TransactionRowOf);
    var found := FindRow(rows, reference);
    TransactionKeys(transactions, reference);
    if found.Some? {
      var i :| 0 <= i < |rows| && rows[i] == found.value;
      assert transactions[i].reference == reference && transactions[i] in transactions;
      var t := Find(transactions, reference).value;
      var k :| 0 <= k < |transactions| && transactions[k] == t;
      assert i == k;
    }
  }

  lemma ReversedRows(transactions: seq<JournalTransaction>, reference: string)
    ensures (exists r | r in MapSeq(transactions, TransactionRowOf) :: r.reversalOf == Some(reference))
            <==> Reverses(transactions, reference)
  {
    hide StateText;
    var rows := MapSeq(transactions, TransactionRowOf);
    assert forall i | 0 <= i < |transactions| :: rows[i].reversalOf == transactions[i].reversalOf && rows[i] in rows;
  }

  lemma ReadsOfTransactions(db: Db, ledger: Ledger, code: string, originalRef: string, reversalRef: string)
    requires Represents(db, ledger) && (code in ledger ==> DistinctReferences(ledger[code].transactions))
    ensures code !in ledger ==> FindRow(Select(db.transactions, code), originalRef).None?
    ensures code in ledger ==>
              && FindRow(Select(db.transactions, code), originalRef)
                 == (match Find(ledger[code].transactions, originalRef) case None => None case Some(t) => Some(TransactionRowOf(t)))
              && (IsReversed(db, code, originalRef) <==> Reverses(ledger[code].transactions, originalRef))
              && (HasTransaction(db, code, reversalRef) <==> reversalRef in References(ledger[code].transactions))
  {
    hide DistinctReferences, References, Reverses, TransactionRowOf;
    assert Select(db.transactions, code) == TransactionsAt(ledger, code);
    if code in ledger {
      RowFound(ledger[code].transactions, originalRef);
      ReversedRows(ledger[code].transactions, originalRef);
      TransactionKeys(ledger[code].transactions, reversalRef);
    }
  }

  /** A stored original reads back in canonical form, and its reversal is built from that. */
  lemma ReversalRead(iso: Iso4217, db: Db, ledger: Ledger, code: string, t: JournalTransaction, reversalRef: string)
    requires Represents(db, ledger) && code in ledger && Find(ledger[code].transactions, t.reference) == Some(t)
    requires TransactionOk(iso, t) && t.state == Posted
    ensures ReversalFrom(iso, TransactionPayload(TransactionRowOf(t), EntryRows(db, code, t.reference)), t.reference, reversalRef)
         == ReversalOutcome(t, reversalRef)
  {
    hide TransactionPayload, TransactionRowOf, EntryRows, TransactionFromMapping, TransactionToMapping, MakeReversal;
    hide TransactionOk, ReversalOutcome, CanonicalTransaction;
    StoredLines(db, ledger, code, t);
    TransactionPayloads(t);
    TransactionRoundTrip(iso, t);
    CanonicalParts(iso, t);
    ReversalMade(iso, t, CanonicalTransaction(t), reversalRef);
  }

  lemma StoredIsPosted(iso: Iso4217, ledger: Ledger, code: string, t: JournalTransaction)
    requires LedgerOk(iso, ledger) && code in ledger && t in ledger[code].transactions
    ensures TransactionOk(iso, t) && t.state == Posted && KnownAccounts(t, Codes(ledger[code].accounts))
    ensures DistinctReferences(ledger[code].transactions)
  {
    hide TransactionOk, ChartOk, PeriodsOk, AccountOk, BookPeriodOk, KnownAccounts, DistinctReferences;
    var i :| 0 <= i < |ledger[code].transactions| && ledger[code].transactions[i] == t;
  }

  lemma ReversalKnown(t: JournalTransaction, reference: string, codes: set<string>)
    requires KnownAccounts(t, codes)
    ensures KnownAccounts(ContraOf(t, reference), codes)
  {
    var entries := ContraOf(t, reference).entries;
    assert forall i | 0 <= i < |t.entries| :: entries[i].accountCode == t.entries[i].accountCode;
  }

  lemma ReverseRefines(
    iso: Iso4217, db: Db, ledger: Ledger, code: string, originalRef: string, reversalRef: string, context: AuditContext)
    requires Represents(db, ledger) && LedgerOk(iso, ledger)
    ensures var (after, outcome) := LedgerReverse(ledger, code, originalRef, reversalRef);
            var written := AppendReversal(iso, db, code, originalRef, reversalRef, context);
            && written.1 == outcome && Represents(written.0, after) && LedgerOk(iso, after)
            && (outcome != Done ==> written.0 == db)
  {
    hide Represents, Transact, TransactionStatements, TransactionRowOf, ReversalFrom, TransactionPayload, EntryRows;
    hide BookOkButPeriods, DistinctReferences, References, Reverses, TransactionOk, KnownAccounts, LedgerPost, ContraOf, NonBlank;
    TakenCode(db, ledger, code);
    ReadsOfTransactions(db, ledger, code, originalRef, reversalRef);
    if code in ledger && Find(ledger[code].transactions, originalRef).Some? {
      var t := Find(ledger[code].transactions, originalRef).value;
      StoredIsPosted(iso, ledger, code, t);
      ReversalRead(iso, db, ledger, code, t, reversalRef);
      var trimmed := RequireText(reversalRef);
      if trimmed.Some? && trimmed.value != originalRef {
        ReversalOk(iso, t, trimmed.value);
        ReversalKnown(t, trimmed.value, Codes(ledger[code].accounts));
        PostRefines(iso, db, ledger, code, ContraOf(t, trimmed.value), context);
      }
    }
  }

  // ---------- Runs ----------

  lemma LogIsNotShown(db: Db, payload: Payload, context: AuditContext, ledger: Ledger)
    requires Represents(db, ledger)
    ensures Represents(Record(db, payload, context), ledger)
  {}

  /** Every command has the effect and the outcome of the plain operation; a refused one leaves the
      database, log included, as it was. */
  lemma ApplyRefines(iso: Iso4217, db: Db, ledger: Ledger, c: Command)
    requires Represents(db, ledger) && LedgerOk(iso, ledger) && CommandOk(iso, c)
    ensures var (after, outcome) := LedgerApply(ledger, c);
            && Apply(iso, db, c).1 == outcome
            && Represents(Apply(iso, db, c).0, after) && LedgerOk(iso, after)
            && (outcome != Done ==> Apply(iso, db, c).0 == db)
  {
    hide Represents, LedgerOk, BookOk, TransactionOk, CreateBook, AppendTransaction, AppendReversal, Record;
    hide LedgerCreate, LedgerAppend, LedgerReverse;
    match c
    case CreateBookCommand(b, context) => CreateRefines(iso, db, ledger, b, context);
    case AppendTransactionCommand(book, t, context) => AppendRefines(iso, db, ledger, book, t, context);
    case CreateReversalCommand(book, original, reversal, context) => ReverseRefines(iso, db, ledger, book, original, reversal, context);
    case AppendResultCommand(book, reference, pack, issues, context) =>
      LogIsNotShown(db, LegislativeResult(book, reference, pack, issues), context, ledger);
    case SnapshotCommand(_, _) =>
  }

  /** After every run, failed commands included, the tables represent the ledger of that run. */
  lemma {:induction false} RunRefines(iso: Iso4217, commands: seq<Command>)
    requires CommandsOk(iso, commands)
    ensures Represents(Run(iso, EMPTY, commands), LedgerRun(commands)) && LedgerOk(iso, LedgerRun(commands))
  {
    hide Represents, BookOk, TransactionOk, Apply, LedgerApply, BookOkButPeriods;
    if commands == [] {
      EmptyRepresents();
    } else {
      var n := |commands| - 1;
      RunRefines(iso, commands[..n]);
      ApplyRefines(iso, Run(iso, EMPTY, commands[..n]), LedgerRun(commands[..n]), commands[n]);
    }
  }

  /** In every reachable store every transaction of every book, and every whole book, has equal debits
      and credits in every currency. */
  lemma StoreBalanced(iso: Iso4217, commands: seq<Command>, code: string, currency: string)
    requires CommandsOk(iso, commands) && code in LedgerRun(commands)
    ensures var transactions := LedgerRun(commands)[code].transactions;
            && (forall i | 0 <= i < |transactions| :: Net(transactions[i].entries, currency) == 0.0)
            && BookNet(transactions, currency) == 0.0
  {
    hide Net, Total, EntriesOk, EntryOk, ChartOk, PeriodsOk, AccountOk, BookPeriodOk;
    RunRefines(iso, commands);
    var transactions := LedgerRun(commands)[code].transactions;
    forall i | 0 <= i < |transactions|
      ensures TransactionOk(iso, transactions[i]) && transactions[i].state == Posted
      ensures Net(transactions[i].entries, currency) == 0.0
    {
      StoredIsPosted(iso, LedgerRun(commands), code, transactions[i]);
      EntriesOkMeans(transactions[i].entries);
    }
    BookBalanced(iso, transactions, currency);
  }
}
