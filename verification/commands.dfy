/** What each store operation does to the database, as a function of the database it starts from. */
module Commands {
  import opened Text
  import opened Model
  import opened Sorting
  import opened Sequences
  import opened Mapping
  import opened Schema

  datatype StoreError =
    | ChartRejected
    | NotPostedError
    | EntriesRejected
    | UnknownBook
    | UnknownAccountCode(code: string)
    | UnknownTransaction
    | AlreadyReversed
    | ReferenceInUse
    | Rejected(fault: Fault)
    | Constraint
    | FileError
    | StoreClosed

  /** A command returns its receipt or raises. */
  datatype Outcome = Done | Raised(error: StoreError)

  // ---------- Rows as mappings ----------

  function EntryPayload(r: EntryRow): Json {
    Obj(map[
      AccountCode := Str(r.accountCode),
      Side := Str(r.side),
      Amount := Str(r.amount),
      Currency := Str(r.currency),
      Description := OptionalStr(r.description),
      TaxRate := OptionalStr(r.taxRate)
    ])
  }

  /** The year column decides whether there is a period; the other two are then read as they stand. */
  function PeriodPayload(year: Option<int>, quarter: Option<int>, month: Option<int>): Json {
    match year
    case None => Null
    case Some(y) => Obj(map[FiscalYear := Num(y), Quarter := OptionalNum(quarter), Month := OptionalNum(month)])
  }

  function OptionalNum(n: Option<int>): Json {
    match n case None => Null case Some(k) => Num(k)
  }

  predicate LineLe(a: EntryRow, b: EntryRow) { a.lineNo <= b.lineNo }

  /** `SELECT ... WHERE book_code = ? AND transaction_reference = ? ORDER BY line_no`. */
  function EntryRows(db: Db, book: string, reference: string): seq<EntryRow> {
    Sort(Select(db.entries, (book, reference)), LineLe)
  }

  function TransactionPayload(r: TransactionRow, entries: seq<EntryRow>): Json {
    Obj(map[
      Reference := Str(r.reference),
      PostedAt := Str(r.postedAt),
      Description := Str(r.description),
      Entries := Arr(MapSeq(entries, EntryPayload)),
      Period := PeriodPayload(r.periodFiscalYear, r.periodQuarter, r.periodMonth),
      State := Str(r.state),
      ReversalOf := OptionalStr(r.reversalOf)
    ])
  }

  // ---------- Operations ----------

  function Finish(db: Db, written: Option<Db>): (Db, Outcome) {
    match written case None => (db, Raised(Constraint)) case Some(d) => (d, Done)
  }

  function CreateBook(db: Db, b: Book, context: AuditContext): (Db, Outcome) {
    if !ChartOk(b.accounts) then (db, Raised(ChartRejected))
    else Finish(db, Transact(db, BookStatements(b), context))
  }

  function KnownCodes(db: Db, book: string): set<string> {
    set r | r in Select(db.accounts, book) :: r.code
  }

  /** `code` is the account code of an entry on no known account, every earlier entry being on one. */
  ghost predicate FirstStranger(entries: seq<LedgerEntry>, codes: set<string>, code: string) {
    exists i | 0 <= i < |entries| ::
      && entries[i].accountCode == code && code !in codes
      && forall k | 0 <= k < i :: entries[k].accountCode in codes
  }

  lemma {:induction false} FirstUnknownIs(entries: seq<LedgerEntry>, codes: set<string>, code: string)
    ensures FirstUnknown(entries, codes) == Some(code) <==> FirstStranger(entries, codes, code)
  {
    if entries != [] {
      var rest := entries[1..];
      FirstUnknownIs(rest, codes, code);
      if entries[0].accountCode in codes {
        if FirstStranger(rest, codes, code) {
          var i :| 0 <= i < |rest| && rest[i].accountCode == code && code !in codes
                && forall k | 0 <= k < i :: rest[k].accountCode in codes;
          assert entries[i + 1] == rest[i];
          assert forall k | 0 <= k < i + 1 :: entries[k].accountCode in codes by {
            assert forall k | 1 <= k < i + 1 :: entries[k] == rest[k - 1];
          }
        }
        if FirstStranger(entries, codes, code) {
          var i :| 0 <= i < |entries| && entries[i].accountCode == code && code !in codes
                && forall k | 0 <= k < i :: entries[k].accountCode in codes;
          assert rest[i - 1] == entries[i] && forall k | 0 <= k < i - 1 :: rest[k] == entries[k + 1];
        }
      }
    }
  }

  function FirstUnknown(entries: seq<LedgerEntry>, codes: set<string>): (r: Option<string>)
    ensures r.None? <==> forall i | 0 <= i < |entries| :: entries[i].accountCode in codes
  {
    if entries == [] then None
    else if entries[0].accountCode !in codes then Some(entries[0].accountCode)
    else FirstUnknown(entries[1..], codes)
  }

  /** Neither the period nor `reversalOf` is looked at. */
  function AppendTransaction(db: Db, book: string, t: JournalTransaction, context: AuditContext): (Db, Outcome) {
    if t.state != Posted then (db, Raised(NotPostedError))
    else if !EntriesOk(t.entries) then (db, Raised(EntriesRejected))
    else if KnownCodes(db, book) == {} then (db, Raised(UnknownBook))
    else
      match FirstUnknown(t.entries, KnownCodes(db, book))
      case Some(code) => (db, Raised(UnknownAccountCode(code)))
      case None => Finish(db, Transact(db, TransactionStatements(book, t), context))
  }

  function FindRow(rows: seq<TransactionRow>, reference: string): (r: Option<TransactionRow>)
    ensures r.Some? ==> r.value in rows && r.value.reference == reference
    ensures r.None? ==> forall x | x in rows :: x.reference != reference
  {
    if rows == [] then None
    else if rows[0].reference == reference then Some(rows[0])
    else FindRow(rows[1..], reference)
  }

  function Flip(s: PostingSide): PostingSide {
    if s == Debit then Credit else Debit
  }

  function Invert(e: LedgerEntry): LedgerEntry {
    e.(side := Flip(e.side))
  }

  lemma InvertedOk(iso: Iso4217, entries: seq<LedgerEntry>)
    requires forall i | 0 <= i < |entries| :: EntryOk(iso, entries[i])
    ensures forall i | 0 <= i < |entries| :: EntryOk(iso, MapSeq(entries, Invert)[i])
  {
    forall i | 0 <= i < |entries| ensures EntryOk(iso, MapSeq(entries, Invert)[i]) {
      assert MapSeq(entries, Invert)[i] == Invert(entries[i]);
    }
  }

  /** The transaction that swaps the sides of `t` and names it. */
  function MakeReversal(iso: Iso4217, t: JournalTransaction, originalRef: string, reversalRef: string)
    : (r: Result<JournalTransaction>)
    requires forall i | 0 <= i < |t.entries| :: EntryOk(iso, t.entries[i])
    requires t.period.Some? ==> FiscalPeriodOk(t.period.value)
  {
    InvertedOk(iso, t.entries);
    MakeTransaction(iso, JournalTransaction(
      reversalRef, t.postedAt, "Reversal of " + originalRef, MapSeq(t.entries, Invert), t.period, Posted,
      Some(originalRef)))
  }

  /** Reads the original back from its rows before reversing it. */
  function ReversalFrom(iso: Iso4217, original: Json, originalRef: string, reversalRef: string)
    : Result<JournalTransaction>
  {
    var t :- TransactionFromMapping(iso, original);
    MakeReversal(iso, t, originalRef, reversalRef)
  }

  predicate IsReversed(db: Db, book: string, reference: string) {
    exists r | r in Select(db.transactions, book) :: r.reversalOf == Some(reference)
  }

  function AppendReversal(
    iso: Iso4217, db: Db, book: string, originalRef: string, reversalRef: string, context: AuditContext): (Db, Outcome)
  {
    match FindRow(Select(db.transactions, book), originalRef)
    case None => (db, Raised(if HasBook(db, book) then UnknownTransaction else UnknownBook))
    case Some(row) =>
      if IsReversed(db, book, originalRef) then (db, Raised(AlreadyReversed))
      else if HasTransaction(db, book, reversalRef) then (db, Raised(ReferenceInUse))
      else
        match ReversalFrom(iso, TransactionPayload(row, EntryRows(db, book, originalRef)), originalRef, reversalRef)
        case Err(fault) => (db, Raised(Rejected(fault)))
        case Ok(t) => Finish(db, Transact(db, TransactionStatements(book, t), context))
  }

  /** A log row of its own, with no table row and no trigger. */
  function AppendResult(
    db: Db, book: string, reference: string, packCode: string, issues: seq<Issue>, context: AuditContext): (Db, Outcome)
  {
    (Record(db, LegislativeResult(book, reference, packCode, issues), context), Done)
  }

  // ---------- Commands and runs ----------

  /** Whether the file system takes a snapshot (`written`) is an input. */
  datatype Command =
    | CreateBookCommand(newBook: Book, context: AuditContext)
    | AppendTransactionCommand(book: string, transaction: JournalTransaction, context: AuditContext)
    | CreateReversalCommand(book: string, originalRef: string, reversalRef: string, context: AuditContext)
    | AppendResultCommand(book: string, reference: string, packCode: string, issues: seq<Issue>, context: AuditContext)
    | SnapshotCommand(path: string, written: bool)

  /** The values a command carries went through their constructors. */
  predicate CommandOk(iso: Iso4217, c: Command) {
    && (c.CreateBookCommand? ==> BookOk(iso, c.newBook))
    && (c.AppendTransactionCommand? ==> TransactionOk(iso, c.transaction))
  }

  function Apply(iso: Iso4217, db: Db, c: Command): (Db, Outcome) {
    match c
    case CreateBookCommand(b, context) => CreateBook(db, b, context)
    case AppendTransactionCommand(book, t, context) => AppendTransaction(db, book, t, context)
    case CreateReversalCommand(book, original, reversal, context) => AppendReversal(iso, db, book, original, reversal, context)
    case AppendResultCommand(book, reference, pack, issues, context) => AppendResult(db, book, reference, pack, issues, context)
    case SnapshotCommand(_, written) => (db, if written then Done else Raised(FileError))
  }

  /** The database after a run of commands, failed ones included. */
  function Run(iso: Iso4217, db: Db, commands: seq<Command>): Db {
    if commands == [] then db
    else Apply(iso, Run(iso, db, commands[..|commands| - 1]), commands[|commands| - 1]).0
  }

  lemma RunAppend(iso: Iso4217, db: Db, commands: seq<Command>, c: Command)
    ensures Run(iso, db, commands + [c]) == Apply(iso, Run(iso, db, commands), c).0
  {
    assert (commands + [c])[..|commands|] == commands;
  }

  /** The databases that readers meet after so many commands of a run. */
  function Met(iso: Iso4217, first: Db, commands: seq<Command>, cuts: seq<nat>): (r: seq<Db>)
    requires forall i | 0 <= i < |cuts| :: cuts[i] <= |commands|
    ensures |r| == |cuts| && forall i | 0 <= i < |cuts| :: r[i] == Run(iso, first, commands[..cuts[i]])
  {
    seq(|cuts|, i requires 0 <= i < |cuts| => Run(iso, first, commands[..cuts[i]]))
  }

  ghost predicate Rising(cuts: seq<nat>, n: nat) {
    && (forall i, j | 0 <= i <= j < |cuts| :: cuts[i] <= cuts[j])
    && forall i | 0 <= i < |cuts| :: cuts[i] <= n
  }

  predicate CommandsOk(iso: Iso4217, commands: seq<Command>) {
    forall i | 0 <= i < |commands| :: CommandOk(iso, commands[i])
  }
}
