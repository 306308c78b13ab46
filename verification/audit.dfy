/** The audit log: gapless, append-only, attributed, and enough to rebuild every table; and reading
    it page by page. */
module Audit {
  import opened Text
  import opened Model
  import opened Schema
  import opened Commands

  // ---------- What the log holds ----------

  /** Row ids run 1, 2, ... without a gap. */
  ghost predicate Gapless(log: seq<AuditRecord>) {
    forall i | 0 <= i < |log| :: log[i].seqNo == i + 1
  }

  /** The database without its log. */
  function Tables(db: Db): Db {
    db.(log := [])
  }

  /** Inserts every INSERT row of the log into empty tables, in order. */
  function Replay(log: seq<AuditRecord>): Db {
    if log == [] then EMPTY
    else
      var before := Replay(log[..|log| - 1]);
      match log[|log| - 1].payload
      case Inserted(s) => AddRow(before, s)
      case LegislativeResult(_, _, _, _) => before
  }

  ghost predicate Faithful(db: Db) {
    Gapless(db.log) && Replay(db.log) == Tables(db)
  }

  /** `after` has the whole log of `before`, and beyond it only rows of this context. */
  ghost predicate ExtendsBy(before: Db, after: Db, context: AuditContext) {
    && before.log <= after.log
    && forall i | |before.log| <= i < |after.log| :: after.log[i].context == context
  }

  lemma {:induction false} GaplessMax(log: seq<AuditRecord>)
    requires Gapless(log)
    ensures MaxSeq(log) == |log|
  {
    if log != [] { GaplessMax(log[..|log| - 1]); }
  }

  lemma RecordKeeps(db: Db, payload: Payload, context: AuditContext)
    requires Gapless(db.log)
    ensures Gapless(Record(db, payload, context).log) && ExtendsBy(db, Record(db, payload, context), context)
    ensures |Record(db, payload, context).log| == |db.log| + 1
  {
    GaplessMax(db.log);
  }

  lemma ReplayRecorded(db: Db, payload: Payload, context: AuditContext)
    ensures Replay(Record(db, payload, context).log)
         == match payload
            case Inserted(s) => AddRow(Replay(db.log), s)
            case LegislativeResult(_, _, _, _) => Replay(db.log)
  {
    var log := Record(db, payload, context).log;
    assert log[..|log| - 1] == db.log;
  }

  lemma AppendFaithful(db: Db, s: Statement, context: AuditContext)
    requires Faithful(db)
    ensures Faithful(Append(db, s, context)) && ExtendsBy(db, Append(db, s, context), context)
    ensures |Append(db, s, context).log| == |db.log| + 1
  {
    hide Replay, Gapless, MaxSeq;
    SameLog(db, s);
    RecordKeeps(AddRow(db, s), Inserted(s), context);
    ReplayRecorded(AddRow(db, s), Inserted(s), context);
  }

  lemma SameLog(db: Db, s: Statement)
    ensures AddRow(db, s).log == db.log
  {}

  lemma ExtendsTransitive(a: Db, b: Db, c: Db, context: AuditContext)
    requires ExtendsBy(a, b, context) && ExtendsBy(b, c, context)
    ensures ExtendsBy(a, c, context)
  {
    forall i | |a.log| <= i < |c.log| ensures c.log[i].context == context {
      if i < |b.log| { assert b.log[i] == c.log[i]; }
    }
  }

  /** Statements that all go in leave one log row each. */
  lemma {:induction false} ExecuteAllFaithful(db: Db, statements: seq<Statement>, context: AuditContext)
    requires Faithful(db) && ExecuteAll(db, statements, context).Some?
    ensures var after := ExecuteAll(db, statements, context).value;
            Faithful(after) && ExtendsBy(db, after, context) && |after.log| == |db.log| + |statements|
  {
    hide Faithful, Admits, Append;
    if statements != [] {
      var n := |statements| - 1;
      ExecuteAllFaithful(db, statements[..n], context);
      var before := ExecuteAll(db, statements[..n], context).value;
      AppendFaithful(before, statements[n], context);
      ExtendsTransitive(db, before, Append(before, statements[n], context), context);
    }
  }

  lemma FinishFaithful(db: Db, statements: seq<Statement>, context: AuditContext)
    requires Faithful(db)
    ensures var (after, outcome) := Finish(db, Transact(db, statements, context));
            && Faithful(after) && ExtendsBy(db, after, context)
            && (outcome == Done ==> |after.log| == |db.log| + |statements|)
            && (outcome != Done ==> after == db)
  {
    hide Faithful, ParentsStored;
    var r := ExecuteAll(db, statements, context);
    if r.Some? { ExecuteAllFaithful(db, statements, context); }
  }

  function ContextOf(c: Command): AuditContext {
    match c
    case CreateBookCommand(_, context) => context
    case AppendTransactionCommand(_, _, context) => context
    case CreateReversalCommand(_, _, _, context) => context
    case AppendResultCommand(_, _, _, _, context) => context
    case SnapshotCommand(_, _) => AuditContext("", "", None)
  }

  /** Whatever a command does: the log still rebuilds the tables, the old log is a prefix of the new one,
      the rows beyond it carry the command's context, and a command that raises leaves no trace at all. */
  lemma ApplyFaithful(iso: Iso4217, db: Db, c: Command)
    requires Faithful(db)
    ensures var (after, outcome) := Apply(iso, db, c);
            && Faithful(after) && ExtendsBy(db, after, ContextOf(c))
            && (outcome != Done ==> after == db)
  {
    hide Faithful, Transact, BookStatements, TransactionStatements, ReversalFrom, ExtendsBy, Record, ChartOk, EntriesOk;
    NothingAdded(db, ContextOf(c));
    match c
    case CreateBookCommand(b, context) => FinishFaithful(db, BookStatements(b), context);
    case AppendTransactionCommand(book, t, context) => FinishFaithful(db, TransactionStatements(book, t), context);
    case CreateReversalCommand(book, original, reversal, context) =>
      ReversalFaithful(iso, db, book, original, reversal, context);
    case AppendResultCommand(book, reference, pack, issues, context) =>
      ResultFaithful(db, LegislativeResult(book, reference, pack, issues), context);
    case SnapshotCommand(_, _) =>
  }

  lemma NothingAdded(db: Db, context: AuditContext)
    ensures ExtendsBy(db, db, context)
  {}

  lemma ReversalFaithful(
    iso: Iso4217, db: Db, book: string, originalRef: string, reversalRef: string, context: AuditContext)
    requires Faithful(db)
    ensures var (after, outcome) := AppendReversal(iso, db, book, originalRef, reversalRef, context);
            && Faithful(after) && ExtendsBy(db, after, context)
            && (outcome != Done ==> after == db)
  {
    hide Faithful, Transact, TransactionStatements, ReversalFrom, ExtendsBy, TransactionPayload, EntryRows;
    NothingAdded(db, context);
    var found := FindRow(Select(db.transactions, book), originalRef);
    if found.Some? {
      var made := ReversalFrom(iso, TransactionPayload(found.value, EntryRows(db, book, originalRef)), originalRef, reversalRef);
      if made.Ok? { FinishFaithful(db, TransactionStatements(book, made.value), context); }
    }
  }

  lemma ResultFaithful(db: Db, payload: Payload, context: AuditContext)
    requires Faithful(db) && payload.LegislativeResult?
    ensures Faithful(Record(db, payload, context)) && ExtendsBy(db, Record(db, payload, context), context)
  {
    hide Replay, MaxSeq;
    RecordKeeps(db, payload, context);
    ReplayRecorded(db, payload, context);
  }

  /** In every reachable store, failed commands included, replaying the INSERT rows of the log rebuilds all
      five tables exactly, and row ids run from 1 without a gap. */
  lemma {:induction false} RunFaithful(iso: Iso4217, commands: seq<Command>)
    ensures Faithful(Run(iso, EMPTY, commands))
  {
    hide Faithful, Apply;
    if commands == [] {
      EmptyFaithful();
    } else {
      RunFaithful(iso, commands[..|commands| - 1]);
      ApplyFaithful(iso, Run(iso, EMPTY, commands[..|commands| - 1]), commands[|commands| - 1]);
    }
  }

  lemma EmptyFaithful()
    ensures Faithful(EMPTY)
  {}

  /** The log at any earlier point of a run is a prefix of the log at every later point. */
  lemma {:induction false} EarlierLogIsPrefix(iso: Iso4217, commands: seq<Command>, k: nat)
    requires k <= |commands|
    ensures Run(iso, EMPTY, commands[..k]).log <= Run(iso, EMPTY, commands).log
  {
    hide Faithful, Apply;
    if k < |commands| {
      var n := |commands| - 1;
      EarlierLogIsPrefix(iso, commands[..n], k);
      assert commands[..n][..k] == commands[..k];
      RunFaithful(iso, commands[..n]);
      ApplyFaithful(iso, Run(iso, EMPTY, commands[..n]), commands[n]);
    } else {
      assert commands[..k] == commands;
    }
  }

  /** Every log row names the context of one command of the run, a command that succeeded. */
  lemma {:induction false} EveryRowAttributed(iso: Iso4217, commands: seq<Command>, i: nat) returns (k: nat)
    requires i < |Run(iso, EMPTY, commands).log|
    ensures k < |commands| && Run(iso, EMPTY, commands).log[i].context == ContextOf(commands[k])
    ensures Apply(iso, Run(iso, EMPTY, commands[..k]), commands[k]).1 == Done
    ensures |Run(iso, EMPTY, commands[..k]).log| <= i < |Run(iso, EMPTY, commands[..k + 1]).log|
  {
    hide Faithful, Apply;
    var n := |commands| - 1;
    if commands == [] {
      assert false;
    } else {
      var before := Run(iso, EMPTY, commands[..n]);
      RunFaithful(iso, commands[..n]);
      ApplyFaithful(iso, before, commands[n]);
      if i < |before.log| {
        k := EveryRowAttributed(iso, commands[..n], i);
        assert commands[..n][..k] == commands[..k] && commands[..n][..k + 1] == commands[..k + 1];
      } else {
        k := n;
        assert commands[..n + 1] == commands;
      }
    }
  }

  // ---------- Results ----------

  /** The rows that no trigger wrote, with their contexts. */
  function Results(log: seq<AuditRecord>): seq<(Payload, AuditContext)> {
    if log == [] then []
    else
      var last := log[|log| - 1];
      Results(log[..|log| - 1]) + if last.payload.LegislativeResult? then [(last.payload, last.context)] else []
  }

  /** The legislative results that a run of commands handed in. */
  function ResultsOf(commands: seq<Command>): seq<(Payload, AuditContext)> {
    if commands == [] then []
    else
      var last := commands[|commands| - 1];
      ResultsOf(commands[..|commands| - 1])
      + if last.AppendResultCommand?
        then [(LegislativeResult(last.book, last.reference, last.packCode, last.issues), last.context)] else []
  }

  lemma ResultRecorded(db: Db, payload: Payload, context: AuditContext)
    ensures Results(Record(db, payload, context).log)
         == Results(db.log) + if payload.LegislativeResult? then [(payload, context)] else []
  {
    var log := Record(db, payload, context).log;
    assert log[..|log| - 1] == db.log;
  }

  lemma {:induction false} TriggersAddNoResult(db: Db, statements: seq<Statement>, context: AuditContext)
    ensures var after := ExecuteAll(db, statements, context);
            after.Some? ==> Results(after.value.log) == Results(db.log)
  {
    hide Admits, Record, AddRow, Results;
    if statements != [] && ExecuteAll(db, statements, context).Some? {
      var n := |statements| - 1;
      TriggersAddNoResult(db, statements[..n], context);
      var before := ExecuteAll(db, statements[..n], context).value;
      SameLog(before, statements[n]);
      ResultRecorded(AddRow(before, statements[n]), Inserted(statements[n]), context);
    }
  }

  lemma WriteAddsNoResult(db: Db, statements: seq<Statement>, context: AuditContext)
    ensures Results(Finish(db, Transact(db, statements, context)).0.log) == Results(db.log)
  {
    hide ExecuteAll, ParentsStored, Results;
    TriggersAddNoResult(db, statements, context);
  }

  lemma ReversalAddsNoResult(
    iso: Iso4217, db: Db, book: string, originalRef: string, reversalRef: string, context: AuditContext)
    ensures Results(AppendReversal(iso, db, book, originalRef, reversalRef, context).0.log) == Results(db.log)
  {
    hide Transact, TransactionStatements, ReversalFrom, TransactionPayload, EntryRows, Results;
    var found := FindRow(Select(db.transactions, book), originalRef);
    if found.Some? {
      var made := ReversalFrom(iso, TransactionPayload(found.value, EntryRows(db, book, originalRef)), originalRef, reversalRef);
      if made.Ok? { WriteAddsNoResult(db, TransactionStatements(book, made.value), context); }
    }
  }

  lemma ApplyResults(iso: Iso4217, db: Db, c: Command)
    ensures Results(Apply(iso, db, c).0.log) == Results(db.log) + ResultsOf([c])
  {
    hide Transact, BookStatements, TransactionStatements, Record, ChartOk, EntriesOk, Results, AppendReversal;
    assert [c][..0] == [] && ResultsOf([]) == [];
    match c
    case CreateBookCommand(b, context) => WriteAddsNoResult(db, BookStatements(b), context);
    case AppendTransactionCommand(book, t, context) => WriteAddsNoResult(db, TransactionStatements(book, t), context);
    case CreateReversalCommand(book, original, reversal, context) =>
      ReversalAddsNoResult(iso, db, book, original, reversal, context);
    case AppendResultCommand(book, reference, pack, issues, context) =>
      ResultRecorded(db, LegislativeResult(book, reference, pack, issues), context);
    case SnapshotCommand(_, _) =>
  }

  /** The RESULT rows of a store's log are the legislative results handed in, all of them, in order and under
      their own contexts, whatever else was written between them. */
  lemma {:induction false} ResultsInRuns(iso: Iso4217, commands: seq<Command>)
    ensures Results(Run(iso, EMPTY, commands).log) == ResultsOf(commands)
  {
    hide Apply;
    if commands != [] {
      var n := |commands| - 1;
      ResultsInRuns(iso, commands[..n]);
      ApplyResults(iso, Run(iso, EMPTY, commands[..n]), commands[n]);
      assert [commands[n]][..0] == [];
    }
  }

  // ---------- Pages ----------

  /** `WHERE seq > ? ORDER BY seq`, on a log in order. */
  function After(log: seq<AuditRecord>, start: int): seq<AuditRecord> {
    if log == [] then []
    else
      var last := log[|log| - 1];
      After(log[..|log| - 1], start) + if last.seqNo > start then [last] else []
  }

  /** `LIMIT ?`: a negative limit is no limit. */
  function Limit(rows: seq<AuditRecord>, limit: int): seq<AuditRecord> {
    if limit < 0 || |rows| <= limit then rows else rows[..limit]
  }

  function FirstRow(log: seq<AuditRecord>, start: int): nat {
    if start < 0 then 0 else if start > |log| then |log| else start
  }

  lemma {:induction false} AfterIsSuffix(log: seq<AuditRecord>, start: int)
    requires Gapless(log)
    ensures After(log, start) == log[FirstRow(log, start)..]
  {
    if log != [] {
      var n := |log| - 1;
      AfterIsSuffix(log[..n], start);
      assert log[..n] + [log[n]] == log;
    }
  }

  function Concat(pages: seq<seq<AuditRecord>>): seq<AuditRecord> {
    if pages == [] then [] else Concat(pages[..|pages| - 1]) + pages[|pages| - 1]
  }

  /** The logs that successive queries meet, commits in between allowed. */
  ghost predicate Growing(snapshots: seq<seq<AuditRecord>>) {
    && (forall i | 0 <= i < |snapshots| :: Gapless(snapshots[i]))
    && (forall i, j | 0 <= i <= j < |snapshots| :: snapshots[i] <= snapshots[j])
  }

  /** The pages read so far are a block of this log that starts beyond `start` and ends at `last`. */
  ghost predicate PagedIn(log: seq<AuditRecord>, pages: seq<seq<AuditRecord>>, start: int, last: int) {
    && FirstRow(log, start) <= FirstRow(log, last)
    && (if pages == [] then last == start else start <= last == FirstRow(log, last))
    && Concat(pages) == log[FirstRow(log, start)..FirstRow(log, last)]
  }

  /** ... of the log that the latest query met. */
  ghost predicate PagedTo(snapshots: seq<seq<AuditRecord>>, pages: seq<seq<AuditRecord>>, queries: nat, start: int, last: int) {
    queries <= |snapshots| && PagedIn(if queries == 0 then [] else snapshots[queries - 1], pages, start, last)
  }

  lemma PagedGrows(log: seq<AuditRecord>, later: seq<AuditRecord>, pages: seq<seq<AuditRecord>>, start: int, last: int)
    requires PagedIn(log, pages, start, last) && log <= later
    ensures PagedIn(later, pages, start, last)
  {
    if pages != [] {
      assert later[..|log|] == log;
    }
  }

  lemma RowsAreBlock(log: seq<AuditRecord>, last: int, pageSize: int)
    requires Gapless(log)
    ensures var rows, from := Limit(After(log, last), pageSize), FirstRow(log, last);
            && from + |rows| <= |log| && rows == log[from..from + |rows|]
            && (rows != [] ==> rows[|rows| - 1].seqNo == FirstRow(log, rows[|rows| - 1].seqNo) == from + |rows| > last)
  {
    AfterIsSuffix(log, last);
    hide After;
    var rows, from := Limit(After(log, last), pageSize), FirstRow(log, last);
    if rows != [] { assert rows[|rows| - 1] == log[from + |rows| - 1]; }
  }

  lemma PageRead(log: seq<AuditRecord>, pages: seq<seq<AuditRecord>>, start: int, last: int, pageSize: int)
    requires Gapless(log) && PagedIn(log, pages, start, last)
    requires Limit(After(log, last), pageSize) != []
    ensures var rows := Limit(After(log, last), pageSize);
            PagedIn(log, pages + [rows], start, rows[|rows| - 1].seqNo)
  {
    hide After, Limit, Gapless, FirstRow, Concat;
    RowsAreBlock(log, last, pageSize);
    var rows, from := Limit(After(log, last), pageSize), FirstRow(log, last);
    ConcatAppend(pages, rows);
    JoinSlices(log, FirstRow(log, start), from, from + |rows|);
  }

  lemma ConcatAppend(pages: seq<seq<AuditRecord>>, rows: seq<AuditRecord>)
    ensures Concat(pages + [rows]) == Concat(pages) + rows
  {
    assert (pages + [rows])[..|pages|] == pages;
  }

  lemma JoinSlices(log: seq<AuditRecord>, a: nat, b: nat, c: nat)
    requires a <= b <= c <= |log|
    ensures log[a..b] + log[b..c] == log[a..c]
  {}

  lemma PageStep(
    snapshots: seq<seq<AuditRecord>>, pages: seq<seq<AuditRecord>>, queries: nat, start: int, last: int, pageSize: int)
    requires Growing(snapshots) && PagedTo(snapshots, pages, queries, start, last) && queries < |snapshots|
    ensures var rows := Limit(After(snapshots[queries], last), pageSize);
            && PagedTo(snapshots, pages, queries + 1, start, last)
            && (rows != [] ==> PagedTo(snapshots, pages + [rows], queries + 1, start, rows[|rows| - 1].seqNo))
  {
    hide PagedIn, After, Limit, Gapless;
    PagedGrows(if queries == 0 then [] else snapshots[queries - 1], snapshots[queries], pages, start, last);
    if Limit(After(snapshots[queries], last), pageSize) != [] {
      PageRead(snapshots[queries], pages, start, last, pageSize);
    }
  }

  lemma PagedIsRows(snapshots: seq<seq<AuditRecord>>, pages: seq<seq<AuditRecord>>, queries: nat, start: int, last: int)
    requires Growing(snapshots) && PagedTo(snapshots, pages, queries, start, last) && queries > 0
    ensures Concat(pages) <= After(snapshots[queries - 1], start)
    ensures After(snapshots[queries - 1], last) == [] ==> Concat(pages) == After(snapshots[queries - 1], start)
    ensures |Concat(pages)| + |After(snapshots[queries - 1], last)| == |After(snapshots[queries - 1], start)|
  {
    AfterIsSuffix(snapshots[queries - 1], start);
    AfterIsSuffix(snapshots[queries - 1], last);
  }

  /** No commit happens between the queries. */
  ghost predicate Quiet(snapshots: seq<seq<AuditRecord>>) {
    forall i | 0 <= i < |snapshots| :: snapshots[i] == snapshots[0]
  }

  /** `read` of `n` rows have come in `pages` pages, all but the last of them full. */
  ghost predicate FullPages(n: nat, pageSize: int, pages: nat, read: nat) {
    && read <= n
    && (read == pages * pageSize || (read == n && read <= pages * pageSize))
    && (pages > 0 ==> (pages - 1) * pageSize < n)
  }

  lemma FullPagesStep(n: nat, pageSize: int, pages: nat, read: nat, rows: nat)
    requires FullPages(n, pageSize, pages, read) && pageSize >= 1
    requires 0 < rows == if n - read <= pageSize then n - read else pageSize
    ensures FullPages(n, pageSize, pages + 1, read + rows)
  {
    assert (pages + 1) * pageSize == pages * pageSize + pageSize;
  }

  lemma FullPagesCount(n: nat, pageSize: int, pages: nat)
    requires FullPages(n, pageSize, pages, n) && pageSize >= 1
    ensures pages == (n + pageSize - 1) / pageSize
  {
    assert n <= pages * pageSize;
    var excess := n + pageSize - 1 - pages * pageSize;
    if pages > 0 {
      assert (pages - 1) * pageSize == pages * pageSize - pageSize;
      assert 0 <= excess < pageSize;
      DivisionIs(n + pageSize - 1, pageSize, pages, excess);
    } else {
      DivisionIs(pageSize - 1, pageSize, 0, pageSize - 1);
    }
  }

  lemma Scale(x: int, y: int, b: int)
    requires b >= 0
    ensures x <= y ==> x * b <= y * b
  {}

  lemma DivisionIs(a: int, b: int, q: int, r: int)
    requires b > 0 && 0 <= r < b && a == q * b + r
    ensures a / b == q
  {
    var k := a / b;
    assert a == k * b + a % b;
    assert (k + 1) * b == k * b + b && (q + 1) * b == q * b + b;
    Scale(k + 1, q, b);
    Scale(q + 1, k, b);
  }

  /** The first query that finds nothing more. */
  ghost predicate Exhausted(snapshots: seq<seq<AuditRecord>>, pages: seq<seq<AuditRecord>>, queries: nat, start: int) {
    0 < queries <= |snapshots| && Concat(pages) == After(snapshots[queries - 1], start)
  }

  /** Reads pages until a query comes back empty; `snapshots[k]` is the log the k-th query meets. The pages
      hold, in order and without repetition or gap, the rows beyond `startSeq` of the log that the last
      query met; without commits in between, ceil(n / pageSize) + 1 queries are enough. SQLite takes a
      negative limit as none, and a limit of 0 reads nothing. */
  method IterAuditLogPages(snapshots: seq<seq<AuditRecord>>, pageSize: int, startSeq: int)
    returns (pages: seq<seq<AuditRecord>>, queries: nat, finished: bool)
    requires Growing(snapshots)
    ensures finished && pageSize != 0 ==> Exhausted(snapshots, pages, queries, startSeq)
    ensures queries <= |snapshots| && (!finished ==> queries == |snapshots|)
    ensures 0 < queries <= |snapshots| ==> Concat(pages) <= After(snapshots[queries - 1], startSeq)
    ensures forall i | 0 <= i < |pages| :: 1 <= |pages[i]| && (pageSize >= 0 ==> |pages[i]| <= pageSize)
    ensures Quiet(snapshots) && |snapshots| > 0 && pageSize >= 1 ==>
              var n := |After(snapshots[0], startSeq)|;
              && (finished ==> queries == (n + pageSize - 1) / pageSize + 1)
              && (|snapshots| > (n + pageSize - 1) / pageSize ==> finished)
  {
    hide Growing, PagedTo, After, Concat, FullPages;
    NothingRead(snapshots, startSeq, pageSize);
    pages, queries, finished := [], 0, false;
    var lastSeq := startSeq;
    while queries < |snapshots|
      invariant PagedTo(snapshots, pages, queries, startSeq, lastSeq)
      invariant queries <= |snapshots| && queries == |pages|
      invariant forall i | 0 <= i < |pages| :: 1 <= |pages[i]| && (pageSize >= 0 ==> |pages[i]| <= pageSize)
      invariant Quiet(snapshots) && |snapshots| > 0 && pageSize >= 1 ==>
                  FullPages(|After(snapshots[0], startSeq)|, pageSize, queries, |Concat(pages)|)
    {
      var rows := Limit(After(snapshots[queries], lastSeq), pageSize);
      PageStep(snapshots, pages, queries, startSeq, lastSeq, pageSize);
      queries := queries + 1;
      if rows == [] {
        PagedIsRows(snapshots, pages, queries, startSeq, lastSeq);
        if Quiet(snapshots) && pageSize >= 1 { FullPagesCount(|After(snapshots[0], startSeq)|, pageSize, |pages|); }
        finished := true;
        return;
      }
      if Quiet(snapshots) && pageSize >= 1 {
        RowsRead(snapshots, pages, queries - 1, startSeq, lastSeq, pageSize);
        FullPagesStep(|After(snapshots[0], startSeq)|, pageSize, |pages|, |Concat(pages)|, |rows|);
      }
      lastSeq := rows[|rows| - 1].seqNo;
      pages := pages + [rows];
    }
    if queries > 0 {
      PagedIsRows(snapshots, pages, queries, startSeq, lastSeq);
      if Quiet(snapshots) && pageSize >= 1 {
        TooFewQueries(|After(snapshots[0], startSeq)|, pageSize, queries, |Concat(pages)|);
      }
    }
  }

  // ---------- Pages of a run ----------

  function LogsOf(met: seq<Db>): (r: seq<seq<AuditRecord>>)
    ensures |r| == |met| && forall i | 0 <= i < |met| :: r[i] == met[i].log
  {
    seq(|met|, i requires 0 <= i < |met| => met[i].log)
  }

  lemma RunLogsGrow(iso: Iso4217, commands: seq<Command>, cuts: seq<nat>)
    requires Rising(cuts, |commands|)
    ensures Growing(LogsOf(Met(iso, EMPTY, commands, cuts)))
  {
    hide Run;
    var logs := LogsOf(Met(iso, EMPTY, commands, cuts));
    forall i | 0 <= i < |logs| ensures Gapless(logs[i]) {
      RunFaithful(iso, commands[..cuts[i]]);
    }
    forall i, j | 0 <= i <= j < |logs| ensures logs[i] <= logs[j] {
      EarlierLogIsPrefix(iso, commands[..cuts[j]], cuts[i]);
      assert commands[..cuts[j]][..cuts[i]] == commands[..cuts[i]];
    }
  }

  /** Paging while a run of commands commits between the queries, from any row on: the pages of a finished
      reading are the log's rows beyond that row as of the last query. */
  method PagesOfRun(iso: Iso4217, commands: seq<Command>, cuts: seq<nat>, pageSize: int, startSeq: nat)
    returns (pages: seq<seq<AuditRecord>>, queries: nat, finished: bool)
    requires Rising(cuts, |commands|)
    ensures queries <= |cuts| && (!finished ==> queries == |cuts|)
    ensures finished && pageSize != 0 ==> queries > 0
    ensures finished && pageSize != 0 ==>
              var log := Run(iso, EMPTY, commands[..cuts[queries - 1]]).log;
              Concat(pages) == if startSeq <= |log| then log[startSeq..] else []
    ensures forall i | 0 <= i < |pages| :: 1 <= |pages[i]| && (pageSize >= 0 ==> |pages[i]| <= pageSize)
  {
    hide Run, Growing, After, Concat;
    RunLogsGrow(iso, commands, cuts);
    pages, queries, finished := IterAuditLogPages(LogsOf(Met(iso, EMPTY, commands, cuts)), pageSize, startSeq);
    if finished && pageSize != 0 {
      RunFaithful(iso, commands[..cuts[queries - 1]]);
      AfterIsSuffix(Run(iso, EMPTY, commands[..cuts[queries - 1]]).log, startSeq);
    }
  }

  lemma NothingRead(snapshots: seq<seq<AuditRecord>>, start: int, pageSize: int)
    ensures PagedTo(snapshots, [], 0, start, start)
    ensures |snapshots| > 0 ==> FullPages(|After(snapshots[0], start)|, pageSize, 0, |Concat([])|)
  {}

  lemma RowsRead(
    snapshots: seq<seq<AuditRecord>>, pages: seq<seq<AuditRecord>>, queries: nat, start: int, last: int, pageSize: int)
    requires Growing(snapshots) && Quiet(snapshots) && queries < |snapshots| && pageSize >= 1
    requires PagedTo(snapshots, pages, queries, start, last) && |pages| == queries
    ensures var rows := Limit(After(snapshots[queries], last), pageSize);
            var left := |After(snapshots[0], start)| - |Concat(pages)|;
            && |rows| == (if left <= pageSize then left else pageSize)
            && |Concat(pages + [rows])| == |Concat(pages)| + |rows|
  {
    hide After;
    if queries > 0 { PagedIsRows(snapshots, pages, queries, start, last); }
    var rows := Limit(After(snapshots[queries], last), pageSize);
    assert (pages + [rows])[..|pages|] == pages;
  }

  lemma TooFewQueries(n: nat, pageSize: int, queries: nat, read: nat)
    requires FullPages(n, pageSize, queries, read) && pageSize >= 1 && queries > 0
    ensures queries <= (n + pageSize - 1) / pageSize
  {
    assert (queries - 1) * pageSize == queries * pageSize - pageSize;
    var k := (n + pageSize - 1) / pageSize;
    assert n + pageSize - 1 < (k + 1) * pageSize by {
      assert n + pageSize - 1 == k * pageSize + (n + pageSize - 1) % pageSize;
      assert (k + 1) * pageSize == k * pageSize + pageSize;
    }
    Scale(k + 1, queries, pageSize);
  }
}
